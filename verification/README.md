# Qubes-Snitch: a verified model

Qubes-Snitch is a per-VM firewall for Qubes OS. For every source VM it keeps one ordered list of
allow/reject rules and runs it twice: compiled to an nftables table, and interpreted by a daemon for
the packets the table queues. Undecided packets become prompts; a CLI thread turns answers into rules
while a third thread republishes the map from VM names to addresses. This project models that core in
Dafny and proves what the two runs of the policy, and the three threads, promise.

Check it with `dafny verify dfyconfig.toml`.

## Structure

| files | subject |
|---|---|
| `DnsNames`, `Policy` | label splitting, wildcard rules, validation of saved rules; first-match interpretation and how an answer extends a policy |
| `PolicyMeaning`, `Regexes`, `StateMeaning`, `AddressText` | the same notions said independently: networks by address bits, rules by first place in the list, names by labels and by the source's regular expressions, maps and queue by their entries, addresses and rows as text |
| `Nft`, `NftMeaning` | the rendered table as chains of matches and verdicts, an evaluator with conntrack state and a rate limiter, the renderer as loops, and what the table means |
| `Checksums`, `Packets`, `Refused` | one's-complement checksums, the packet parser, the synthesized DNS REFUSED packet |
| `Handlers`, `EndToEnd` | the daemon's verdict on a queued packet; table and daemon together |
| `ReplyLimits`, `OddPackets` | replies under every limiter; malformed packets and those connection tracking calls invalid |
| `Runtime`, `Protocol`, `Guarantees` | the shared state and its lock-protected steps as functions, the three threads as events with a history, invariants and whole-run theorems |
| `Fates` | why each prompt left the queue |
| `Incarnations` | numbered DispVM names against the VMs behind them |
| `PromptQueues`, `Daemons`, `PacketSteps` | the mutable queue and daemon as classes whose methods are proved to be those steps |
| `DnsCaches`, `DnsCacheRuns` | the two-map cache of display hints, and every run of it |
| `LogLimiter`, `LogRuns` | the LRU-bounded token buckets, and every run of them |
| `Sources`, `NetVmWalk` | dom0's rows to source maps, and dom0's walk up the NetVM chain |

Conventions. The rate limiter of the kernel is an arbitrary predicate on (chain, remaining lines), so a
theorem "for every limiter" covers any token accounting; `WITHIN_RATE` and `OVER_RATE` are its two
extremes. `Step` makes one `with POLICY_LOCK` block one event, so a run is any interleaving of packet,
CLI and source events; `failed` stands for a daemon that stopped on a fatal error. An epoch of a name
counts how often its published address list changed, disappearing and reappearing included. Times are
reals and clocks do not run backwards.

## Statements that do not hold as documented

* Packets leaving a VM. "Put specific rejects before broad allows" (`README.md:194`) and "first
  matching rule wins exactly like rendered nft rules" (`qubes_snitch/policy.py:44`) hold only within
  the configured rate. The rendered reject line carries `limit rate ... burst ...` before its verdict
  (`qubes_snitch/nft.py:118`), and in nftables `limit` is a match: over the rate the whole line is
  skipped and a later allow rule applies. `EndToEnd.AgreesForEveryLimiter` gives the exact condition
  for every sound packet of a known VM in original direction that connection tracking does not call
  invalid: table plus daemon agree with the policy under every limiter if and only if the packet is
  UDP/53, or no allow rule matches it besides the reject rule that decides it. `EndToEnd.ShadowedRejectExample` is a smallest failing policy.
* Replies. The mirrored reject lines are limited too (`qubes_snitch/nft.py:146`), so "broad later rules
  cannot override earlier specific decisions" (`qubes_snitch/nft.py:124`) fails over the rate as well,
  and no allow rule is needed for it: behind the mirrored lines stands a general accept for replies
  (`qubes_snitch/nft.py:228`). `ReplyLimits.UnownedRepliesPassOverRate`: over the rate every tracked
  reply from an address no VM owns is accepted. `ReplyLimits.RepliesAgreeForEveryLimiter` gives the
  exact condition for the table's verdict, `ReplyLimits.RejectedReplyStaysOut` for a rejected reply
  never being accepted, `ReplyLimits.RepliesPassForEveryLimiter` for table and daemon together, and
  `ReplyLimits.RejectedReplyExample` is a failing policy of one reject rule.
* Shared addresses. "Refreshes replace only labels from the same qname so unrelated labels for shared
  IPs survive" (`qubes_snitch/dns_cache_runtime.py:107`) holds of the deletion, not of the whole
  refresh: a store takes over the hint of another name for every address in its own answer, and only
  for those (`DnsCacheRuns.StoreAndOtherNames`; `DnsCacheRuns.SharedAddressIsRelabelled` is a run with
  two names and one address). Hints are display text only.
* Old addresses of a name. A refresh is meant to remove them (`qubes_snitch/dns_cache_runtime.py:106`),
  but it finds them through the name's record, and the record may have been evicted.
  `DnsCacheRuns.RefreshForgetsListed` states exactly which hints stay,
  `DnsCacheRuns.RefreshLeavesNoStaleHint` that none does while no name has been evicted, and
  `DnsCacheRuns.EvictedNameLeavesStaleHint` builds runs in which one does.

* Reused DispVM names. Rules of numbered names are temporary because the names "are reused by Qubes
  for unrelated future VMs" (`qubes_snitch/config.py:182`). A refresh recognises such a VM by an absence
  or a changed address (`qubes_snitch/policy_runtime.py:86`), but a name given again with the same dispid
  between two refreshes has the same address
  (`templates/dom0/usr/local/lib/qubes-snitch/sources.py:29-36`) and keeps its rules.
  `Incarnations.ReuseIsCleanIff` gives the exact condition, `Incarnations.RulesBelongToTheVm` what holds
  over every run in which no name is reused that way.

## Model

| member | source | states |
|---|---|---|
| EndToEnd.PassesIffPolicyAllows | qubes_snitch/packet_handlers.py:109-196 | within rate, a sound packet leaving a known VM passes (accepted by the table, or queued and accepted by the daemon) if and only if the first rule of its VM that covers the flow allows it (covering by address bits, port numbers and host sets) and, for UDP/53, its body is a supported question and the first DNS rule that covers it, by type and labels, allows |
| EndToEnd.AgreesForEveryLimiter | qubes_snitch/nft.py:105-119 | for a sound packet of a known VM in original direction that connection tracking does not call invalid, table and daemon agree with the policy under every limiter if and only if the packet is UDP/53 or its deciding reject rule has no matching allow rule beside it |
| EndToEnd.ShadowedRejectPasses | qubes_snitch/nft.py:116-118 | any other such packet passes over the rate although the policy rejects it |
| ReplyLimits.RepliesAgreeForEveryLimiter | qubes_snitch/nft.py:122-147 | the table gives a tracked reply the policy's verdict under every limiter if and only if that verdict rests on no reject rule; for an unowned peer: if and only if the receiver's policy does not reject the flow the reply answers |
| ReplyLimits.RejectedReplyStaysOut | qubes_snitch/nft.py:212-228 | a reply the receiver's policy rejects is accepted under no limiter if and only if no allow rule of the receiver covers it, its sender is a known VM, and it is UDP/53 or no allow rule of the sender covers it |
| ReplyLimits.UnownedRepliesPassOverRate | qubes_snitch/nft.py:224-228 | over the rate every tracked reply to a known VM from an unowned address is accepted, whatever the rules |
| ReplyLimits.RejectedReplyExample | qubes_snitch/nft.py:142-146 | one reject rule and no allow rule: the reply is rejected within rate and accepted over it |
| ReplyLimits.RepliesPassIffAllowed | qubes_snitch/packet_handlers.py:109-196 | within rate a sound tracked reply passes table and daemon if and only if the receiver's first match allows the flow it answers, or has none and the sender is no VM or may send it by its own policy |
| ReplyLimits.RepliesPassForEveryLimiter | qubes_snitch/nft.py:203-247 | the exact condition under which that holds for every limiter |
| ReplyLimits.RepliesLimited | qubes_snitch/nft.py:212-228 | every reply under every limiter: what the mirrored rules may make of it, and what they make of it when every limited line is over its rate |
| OddPackets.MalformedPassesByHeader | qubes_snitch/nft.py:203-247 | within rate a malformed packet from a known VM, which the daemon would drop, passes if and only if it is not UDP/53 and the first rule matching the header fields nftables sees allows; later fragments and cut headers have no ports to match |
| OddPackets.InvalidIsRejectedOrNew | qubes_snitch/nft.py:235 | a packet connection tracking calls invalid is rejected by the first line of its chain, or, when that line is over its rate, treated exactly like a new connection |
| OddPackets.InvalidStaysOut | qubes_snitch/nft.py:233-241 | such a packet is accepted under no limiter if and only if it is UDP/53 or no allow rule of its VM matches it |
| EndToEnd.ShadowedRejectExample | qubes_snitch/policy.py:44-53 | one concrete policy and packet: rejected by first match and within rate, accepted over the rate |
| EndToEnd.TableWhenNotShadowed | qubes_snitch/nft.py:203-247 | without a shadowed reject the table accepts exactly what policy allows under every limiter, and always queues UDP/53 |
| EndToEnd.DaemonFollowsPolicy | qubes_snitch/packet_handlers.py:109-196 | the daemon alone accepts a sound packet if and only if policy allows it |
| Guarantees.EveryStateEnforcesItsPolicy | qubes_snitch/sources_runtime.py:51-61 | in every state reachable by any interleaving of the threads, the loaded table and the daemon, within rate, pass a packet leaving a known VM if and only if the policy in force allows it |
| Guarantees.EveryStateAnswersReplies | qubes_snitch/sources_runtime.py:51-61 | in every reachable state of a run whose maps give each address to one source, the loaded table and the daemon pass a sound tracked reply within rate if and only if the policies in force say so, and for every limiter if and only if the reply is settled |
| PacketSteps.PassedIsAllowedAtVerdict | qubes_snitch/packet_handlers.py:109-174 | whatever the other threads do between a packet's policy readings, a packet that passes is allowed by the policy in force at its verdict, its DNS question too, unless a refresh meanwhile changed the addresses of its numbered source |
| Guarantees.PendingQuestionsAreOpen | qubes_snitch/packet_handlers.py:13-31 | in every reachable state every pending prompt is undecided by current rules, prompts are distinct questions in increasing id order, and the queue is within its bound |
| Guarantees.SavedAnswerIsInForce | qubes_snitch/queue.py:114-126 | whenever an answer changes the rules, the answered action becomes the action in force for the prompted question |
| Guarantees.AnswerSavesIff | qubes_snitch/queue.py:83-126 | an answer changes the rules if and only if the prompt shown is pending, an entry of the map in force lists its address under its name, the file can be written, and a host name decision is on a flow whose host text is "A " and a name the live filter takes, resolved to two or more addresses with the prompt's among them |
| Guarantees.PromptQueuesIff | qubes_snitch/packet_handlers.py:13-31 | a prompt joins the queue, at its end and with the next id, if and only if an entry of the map lists its address under its name, no rule decides it, no pending prompt asks the same and there is room |
| Guarantees.DiscardRemovesShown | qubes_snitch/queue.py:66-80 | a discard takes exactly the prompt shown out of the queue and changes nothing else |
| Guarantees.OnlyListedIsShown | qubes_snitch/daemon_runtime.py:85-94 | a prompt is shown, with the host text found for flows only, if and only if its address is still listed under its name; otherwise it leaves the queue |
| Guarantees.OldestIsShown | qubes_snitch/queue.py:53-63 | the CLI is given the pending prompt with the lowest id |
| Guarantees.OnePromptPerConnection | qubes_snitch/queue.py:129-149 | a CLI connection ends with its answer, discard or hang-up, a hang-up leaves the prompt pending, and no other thread takes the prompt off the screen |
| StateMeaning.SourceCurrentMeaning | qubes_snitch/daemon_runtime.py:80-82 | a source is current exactly when some entry of the dict has its name and lists its address |
| StateMeaning.OwnerMeaning | qubes_snitch/config.py:235-239 | an address belongs to the first entry that lists it |
| StateMeaning.SavedFlowRule | qubes_snitch/policy.py:65-93 | what a flow answer saves: the /32 of the address, or the normalised host name with its resolved set, under the protocol, port and action asked about |
| StateMeaning.FlowRuleIsSavedIff | qubes_snitch/policy.py:65-93 | when a flow answer has a rule, exactly: a port for tcp and udp, none for icmp, no other protocol, and for a host name decision a name the live filter takes |
| Guarantees.DecisionsLast | qubes_snitch/policy.py:56-93 | over any run a decided request keeps its action, unless its source is a numbered DispVM whose published addresses changed |
| Guarantees.NumberedRulesAreFresh | qubes_snitch/policy_runtime.py:67-102 | over any run the rules of a numbered DispVM, in memory and on file, are exactly the answers to prompts raised since its address list last changed |
| Incarnations.ReuseIsCleanIff | qubes_snitch/policy_runtime.py:85-102 | when a refresh finds another VM under a numbered name, the rules in force for it are all answers for that VM if and only if its address is another too, or there were no rules |
| Incarnations.RulesBelongToTheVm | qubes_snitch/policy_runtime.py:67-102 | over every run in which no refresh finds another VM under the name with the old address, its rules, in memory and on file, are exactly the answers of its current epoch, each to a prompt raised while the VM listed now was listed |
| Incarnations.ShareAddressMeaning | templates/dom0/usr/local/lib/qubes-snitch/sources.py:75-80 | two DispVMs share an address if and only if their set addresses are equal, one's set address is the other's derived one, or neither has one set and their dispids are equal |
| AddressText.DispAddrText | templates/dom0/usr/local/lib/qubes-snitch/sources.py:29-36 | the text of the address made from a dispid |
| Incarnations.DispAddrIsInjective | templates/dom0/usr/local/lib/qubes-snitch/sources.py:29-36 | two DispVMs get the same address from their dispids if and only if the dispids are equal |
| Guarantees.LateAnswersAreIgnored | qubes_snitch/queue.py:53-80 | an answer to a prompt raised before that change alters neither rules, files nor queue |
| Guarantees.PromptsAreAccountedFor | qubes_snitch/queue.py:28-50 | every id ever issued has one fate on record, waits exactly while pending, and has at most one saved rule, only if it was claimed |
| Fates.StepExplainsFates | qubes_snitch/queue.py:66-126 | in any step, a prompt leaves as swept only as a flow prompt the claimed answer's resolved set covers (and the saved rule then decides it too), as cleaned up only when its numbered source's addresses change in that refresh, and as claimed or discarded only when it is the prompt shown |
| Fates.EveryFateIsExplained | qubes_snitch/queue.py:66-126 | over any run every settled prompt has such a step, with the fate it still has at the end |
| Guarantees.FatesAreFinal | qubes_snitch/queue.py:66-80 | a prompt that was claimed, swept, discarded or cleaned up stays so over any run |
| Guarantees.RestartReproducesPolicy | qubes_snitch/policy_runtime.py:129-150 | in every reachable state, failed writes included, reloading the files with the same name resolution gives back every source's rules, numbered names excepted, which start empty |
| Guarantees.StartupRules | qubes_snitch/policy_runtime.py:122-126 | after startup the policy of each name is its file with host names resolved, and empty for numbered names |
| Guarantees.TableIsInStep | qubes_snitch/sources_runtime.py:34-61 | in every reachable state without a fatal error every known source has rules, the loaded table is the rendering of current sources and rules, and the packet path's ensure_rule_entry changes nothing |
| Guarantees.FailClosedNeverAccepts | qubes_snitch/nft.py:174-188 | the fail-closed table accepts no packet under any limiter |
| Guarantees.StopsIff | qubes_snitch/daemon_runtime.py:74-103 | a step of any thread stops the daemon if and only if a sender is unknown, a host name decision does not fit its prompt, a rule for a pending prompt cannot be built or written, a changed table cannot be loaded, or something fatal happens elsewhere |
| Guarantees.FailedStartupPassesNothing | templates/usr/lib/qubes-snitch/fail-closed.nft:1-17 | a daemon whose first load failed passes no packet by its table after any events: a refused check leaves the static table, which rejects IPv4, drops the rest and queues nothing |
| Protocol.StepKeepsInv | qubes_snitch/daemon_runtime.py:74-103 | every event of every thread keeps the joint invariant of queue, rules, files, table and history |
| Protocol.RunKeepsInv | qubes_snitch/daemon_runtime.py:151-175 | so does every sequence of events |
| Protocol.StartHasInv | qubes_snitch/sources_runtime.py:83-96 | startup from valid files establishes that invariant, and fails exactly when the table could not be loaded |
| Protocol.StepKeepsTableInv | qubes_snitch/policy_runtime.py:23-25 | no step leaves the loaded table behind sources or rules without a fatal error |
| Protocol.CleanedKeepsInv | qubes_snitch/policy_runtime.py:67-102 | publishing a source map and both cleanups keep the queue and file invariants, and drop exactly the numbered names whose addresses changed |
| Protocol.AnswerLeavesOthersUndecided | qubes_snitch/queue.py:97-126 | an appended answer leaves every prompt that is not claimed or swept with it undecided |
| Protocol.AnswerGrowsBoth | qubes_snitch/policy_runtime.py:134-150 | file and memory grow by the same rule, resolved addresses aside |
| Protocol.AttributeIsInert | qubes_snitch/policy_runtime.py:33-44 | once every known source has an entry, ensure_rule_entry on the packet path is a no-op |
| PacketSteps.HandledPacketsAreSteps | qubes_snitch/packet_handlers.py:41-62 | handling a packet of a known VM in one state is at most one valid prompt event of the protocol |
| PacketSteps.UndecidedPacketsAreAsked | qubes_snitch/packet_handlers.py:13-31 | after a packet that policy leaves open, some pending prompt asks the same DNS question, or the same destination, protocol and port, for its source, unless the queue is full; any other packet leaves the queue alone |
| PolicyMeaning.QuestionKeyMeaning | qubes_snitch/queue.py:21-25 | two requests have one key if and only if they ask the same: the same question, or the same destination, protocol and port, for the same source |
| PacketSteps.UnknownSourceRefreshes | qubes_snitch/packet_handlers.py:42-60 | after a packet from an unowned address the daemon runs on only if the map it read lists the address, and then that map and its table are in force; with a successful load it does run on |
| PromptQueues.PromptQueue.QueueQuestion | qubes_snitch/queue.py:28-50 | reports a duplicate if and only if a pending prompt asks the same, full if there is no room, and otherwise appends one prompt with the next id; the two dicts keep sharing their keys |
| PromptQueues.PromptQueue.NextPending | qubes_snitch/queue.py:53-63 | returns the oldest prompt with its id and changes nothing |
| PromptQueues.PromptQueue.RemovePendingForSource | qubes_snitch/queue.py:66-72 | removes exactly the prompts of one source, in both dicts, keeping order and ids |
| PromptQueues.PromptQueue.DiscardPendingDecision | qubes_snitch/queue.py:75-80 | removes the prompt only when it still has the given id |
| PromptQueues.PromptQueue.RemovePendingHostnameSet | qubes_snitch/queue.py:97-111 | removes exactly the flow prompts of the same source, protocol and port whose address is in the resolved set |
| PromptQueues.PromptQueue.ClaimPending | qubes_snitch/queue.py:114-126 | claims a prompt only under the id it was issued with, sweeps its siblings, and otherwise changes nothing |
| Daemons.Daemon.constructor | qubes_snitch/sources_runtime.py:83-96 | startup as one value: numbered files gone, others loaded, first source map published, table loaded over the static one or the failure of that |
| Daemons.Daemon.EnsureRuleEntry | qubes_snitch/policy_runtime.py:33-44 | the whole new state: an entry from the file or an empty one, only where none was |
| Daemons.Daemon.CleanupReusedNumberedEntries | qubes_snitch/policy_runtime.py:85-102 | the loop drops rules, file and prompts of exactly the numbered names listed before and after with different addresses |
| Daemons.Daemon.CleanupDisposableRuleEntries | qubes_snitch/policy_runtime.py:67-82 | the loop drops exactly the numbered names with rules that are no longer listed |
| Daemons.Daemon.EnsureAllKnownRuleEntries | qubes_snitch/sources_runtime.py:34-37 | the loop adds exactly the missing entries of listed sources, whatever their order |
| Daemons.Daemon.LoadTable | qubes_snitch/nft.py:250-262 | the rendering becomes the loaded table; a refused check keeps the previous table, a failed live load installs the fail-closed one, and both stop the daemon |
| Daemons.Daemon.RefreshSources | qubes_snitch/sources_runtime.py:51-61 | the published map, both cleanups, entries and table as one step, reported as a change; nothing, reported as none, when the maps are unchanged |
| Daemons.Daemon.AppendRuleFor | qubes_snitch/policy_runtime.py:129-150 | memory and file change together or not at all |
| Daemons.Daemon.SavePendingDecision | qubes_snitch/queue.py:114-126 | claiming, saving while the source is current, and reloading, as the protocol's answer step |
| Daemons.Daemon.QueuePrompt | qubes_snitch/packet_handlers.py:13-31 | the recheck under the lock: the action found, or a prompt queued, never both |
| Daemons.Daemon.HandleDnsDomain | qubes_snitch/packet_handlers.py:109-136 | verdict and new state for any earlier policy reading, also when the policy changed since |
| Daemons.Daemon.HandleDnsTransport | qubes_snitch/packet_handlers.py:139-159 | transport policy first; the domain is judged only when transport is allowed by one of its two readings |
| Daemons.Daemon.HandleFlowPacket | qubes_snitch/packet_handlers.py:162-174 | verdict and new state for any earlier policy reading |
| Daemons.Daemon.HandleAttributed | qubes_snitch/packet_handlers.py:109-196 | the whole handling of an attributed packet for any earlier policy readings: verdict and new state, also when the policy changed since |
| Daemons.Daemon.HandlePacket | qubes_snitch/packet_handlers.py:177-196 | for every byte string, with nothing happening between its lock sections: the verdict of the policy in force and at most one new prompt; unknown sources are dropped after one refresh |
| Handlers.ReadsExactlySupportedQueries | qubes_snitch/dns.py:144-200 | the chain of checks accepts a body as question q if and only if it is a plain client query for the supported q |
| Handlers.PassNeedsAllow | qubes_snitch/packet_handlers.py:109-174 | whatever is saved between the two policy readings, a queued packet passes only if the transport, and for DNS a supported question too, was allowed by one of them |
| Handlers.RefusesExactly | qubes_snitch/packet_handlers.py:109-174 | a packet is answered REFUSED if and only if it is a sound UDP/53 query whose transport is allowed and that is either a client message of an unsupported kind or a supported question that a rule rejects |
| Handlers.QueuedRequestsArePromptable | qubes_snitch/packet_handlers.py:109-174 | everything the handlers queue has ports where its protocol has them and a live DNS name |
| NftMeaning.CompilationPreservesMeaning | qubes_snitch/nft.py:203-247 | within rate, for every rule list and every valid original-direction packet of a known VM, the table gives accept, reject or queue exactly as first match gives allow, reject or none, and queues UDP/53; dropping the per-rule UDP/53 lines changes no verdict |
| NftMeaning.RepliesMirrorPolicy | qubes_snitch/nft.py:122-152 | within rate, a tracked reply to a VM gets the action policy gives the flow with endpoints and ports swapped, whatever other sources' rules say; without a matching rule the exact fallback |
| NftMeaning.AcceptSound | qubes_snitch/nft.py:203-247 | for every limiter an accepted packet is IPv4 and is a tracked reply to a known VM, or not UDP/53 and matched by an allow rule of the VM that owns its source address |
| NftMeaning.UnknownSenderIsQueued | qubes_snitch/nft.py:190-247 | an IPv4 packet from an unowned address that is no reply to a known VM is handed to the daemon under every limiter |
| NftMeaning.SourceChainNeverReturns | qubes_snitch/nft.py:218-241 | a source chain decides every packet under every limiter |
| NftMeaning.ForwardToOwnChain | qubes_snitch/nft.py:155-171 | a packet that is no tracked reply is decided by the chain of the one source that owns its address |
| NftMeaning.FlowMatchesMeaning | qubes_snitch/nft.py:58-74 | the rendered match holds of a packet if and only if the packet is IPv4 and flow_rule_matches holds of its flow, for any, CIDR, port ranges and multi-address host rules |
| PolicyMeaning.NetworkIsPrefix | qubes_snitch/policy.py:33 | an address is in a network if and only if the 32-bit notations of both agree in the first prefix bits |
| PolicyMeaning.FlowRuleMatchesMeaning | qubes_snitch/policy.py:11-35 | a flow rule matches if and only if the protocol is its own, the address is any, has the network's bits or is in the resolved set, and the port is any, the one or in the range |
| PolicyMeaning.FirstFlowMeaning | qubes_snitch/policy.py:50-53 | the action is that of the rule at the first place that covers the flow |
| PolicyMeaning.FirstFlowOpen | qubes_snitch/policy.py:50-53 | there is none if and only if no rule covers it |
| PolicyMeaning.DnsRuleMatchesMeaning | qubes_snitch/dns.py:62-71 | every DNS rule, wildcard or not, matches if and only if the question's type is its type in capitals and its name in small letters is the question's, or is "*." and a suffix whose labels are a proper suffix of the question's |
| PolicyMeaning.FirstDnsMeaning | qubes_snitch/policy.py:46-49 | the action for a question is that of the rule at the first place that covers it |
| NftMeaning.ReplyMatchesMeaning | qubes_snitch/nft.py:122-141 | the rendered reply match holds of exactly the tracked replies to the address that mirror the rule |
| NftMeaning.RuleLinesMeaning | qubes_snitch/nft.py:105-119 | the one or two lines of a rule decide exactly the packets its match covers |
| NftMeaning.DnsQueueLineMeaning | qubes_snitch/nft.py:90-98 | the extra line of a UDP allow rule holds exactly of UDP/53 packets to the rule's destinations |
| NftMeaning.RulesSound | qubes_snitch/nft.py:234-240 | under every limiter the rule lines accept only by an allow rule, accept when first match allows and queue when nothing matches |
| NftMeaning.ReplySourcesMeaning | qubes_snitch/nft.py:43-47 | the source constraints of reply lines cover exactly the addresses the rule's destination covers |
| NftMeaning.ReplyActionIsOwners | qubes_snitch/nft.py:212-216 | with one owner per address only the owner's rules count, wherever it is listed |
| Nft.RenderMatch | qubes_snitch/nft.py:58-74 | the list grown in place is the match specification |
| Nft.RenderRule | qubes_snitch/nft.py:105-119 | the lines of a rule, with the extra UDP/53 queue line where a UDP allow covers port 53 |
| Nft.RenderReplyLine | qubes_snitch/nft.py:122-147 | the mirrored line of a rule for one VM address and reply source |
| Nft.RenderReplyLines | qubes_snitch/nft.py:150-152 | one line per reply source, in order |
| Nft.RenderChains | qubes_snitch/nft.py:218-247 | one chain per source and the unknown chain, no other |
| Nft.RenderForward | qubes_snitch/nft.py:203-217 | the forward chain: replies, UDP/53 jumps, jumps, reply accepts, tail |
| Nft.RenderNft | qubes_snitch/nft.py:203-247 | the nested loops write the table whose meaning the theorems above state |
| Policy.DnsAnswerMatchesOnlyItsQuestion | qubes_snitch/policy.py:56-62 | a saved DNS answer is accepted by the validator and matches exactly the question asked |
| Policy.FlowAnswerCovers | qubes_snitch/policy.py:65-93 | a saved flow answer matches exactly the flows with the same protocol and port to the same address, or to the resolved set when a host name was chosen |
| Policy.AnswerDecidesItsQuestion | qubes_snitch/policy.py:37-93 | appending an answer changes no decided request and decides its own open question |
| Policy.FirstFlowConcat | qubes_snitch/policy.py:50-53 | first match over a longer list: earlier rules win |
| DnsNames.WildcardIsLabelSuffix | qubes_snitch/dns.py:62-71 | the string test for "*." rules holds if and only if the rule's labels are a proper suffix of the query's labels |
| DnsNames.ValidateIdempotent | qubes_snitch/config.py:309-339 | validating a validated rule changes nothing |
| DnsNames.ValidateAgreesWithLivePath | qubes_snitch/config.py:309-339 | a rule without wildcard is accepted if and only if the live path accepts its normalised name and type |
| DnsNames.PromptedQuestionSavesUnchanged | qubes_snitch/dns.py:124-131 | every question the packet path prompts for is saved unchanged and then matches exactly itself |
| DnsNames.NormalizeIdempotent | qubes_snitch/dns.py:52-54 | normalising a name twice is normalising it once |
| PolicyMeaning.NormalizeMeaning | qubes_snitch/dns.py:52-54 | normalising strips all trailing dots and replaces exactly the 26 capitals |
| Regexes.QnameIsLabels | qubes_snitch/dns.py:20-21 | a name fully matches LIVE_DNS_QNAME_RE if and only if it has two or more labels, each plain |
| Regexes.SrvQnameIsLabels | qubes_snitch/dns.py:22-23 | a name fully matches LIVE_DNS_SRV_QNAME_RE if and only if it has two service labels and two or more plain ones |
| Regexes.LiveNameMeaning | qubes_snitch/dns.py:124-131 | the names the filter takes: full matches of the pattern, up to 253 characters, not under ip6.arpa, no punycode label |
| Regexes.LiveSrvNameMeaning | qubes_snitch/dns.py:124-131 | the same for SRV, where service labels are limited to 63 characters with their underscore |
| Regexes.WildcardRuleIsTaken | qubes_snitch/config.py:309-339 | a hand-written wildcard rule is accepted if and only if the name behind "*." is such a name of up to 251 characters and its type is supported |
| Regexes.NumberedIsPattern | qubes_snitch/config.py:35 | the names the cleanups are about are the full matches of NUMBERED_DISPVM_RE |
| Regexes.SourceNameIsPattern | qubes_snitch/config.py:20 | the character tests on source names accept exactly the full matches of SOURCE_NAME_RE |
| DnsNames.LiveNameIsNormal | qubes_snitch/dns.py:19-22 | a name the live filter accepts is already normal and is no wildcard |
| DnsNames.JoinSplit | qubes_snitch/dns.py:62-71 | splitting at a separator loses nothing |
| Checksums.InetChecksum | qubes_snitch/dns.py:74-82 | the carry-folding loop ends on every buffer, odd lengths included, with the specified word |
| Checksums.FoldIsModulo | qubes_snitch/dns.py:79-81 | folding is the sum modulo 65535, with 65535 standing for a nonzero multiple |
| Checksums.ChecksumVerifies | qubes_snitch/dns.py:85-94 | inserting w into a zeroed, even-aligned word makes the buffer re-check to 0 if and only if w is the computed checksum, or 65535 when that is 0 |
| Packets.ParsePacket | qubes_snitch/packets.py:35-102 | total on every byte string, without an index out of range, with the first defect found |
| Packets.StagesSeeTheSameFlow | qubes_snitch/packets.py:35-102 | for a sound packet the parser and the header fields nftables reads give the same source, flow and UDP/53 test |
| Packets.FieldsOfHeader | qubes_snitch/packets.py:35-75 | both stages read protocol 1 as icmp, 6 as tcp, 17 as udp, and the address bytes most significant first |
| OddPackets.LaterFragmentsHaveNoPort | qubes_snitch/nft.py:58-74 | a later fragment is covered by rules for any port only, and never counts as UDP/53 |
| Refused.RefusedRoundTrip | qubes_snitch/dns.py:97-121 | the REFUSED packet for any sound query and any wire that fits parses back as sound UDP with swapped endpoints and ports and that wire as body, keeps the query's id and fragment field, and verifies: the header checksum, and the UDP checksum over the pseudo-header of RFC 768 taken from the packet's own bytes |
| Refused.DatagramIsSound | qubes_snitch/dns.py:85-121 | the same for every IPv4/UDP datagram so built, the 0 to 65535 substitution included |
| DnsCaches.SortKeyIsExpiry | qubes_snitch/dns_cache_runtime.py:43 | the two-part sort key orders entries exactly as plain expiry does |
| DnsCaches.SortByExpiry | qubes_snitch/dns_cache_runtime.py:43-45 | the keys come back complete, once each, and in order of expiry |
| DnsCaches.HintVictims | qubes_snitch/dns_cache_runtime.py:35-46 | cutting the victims leaves exactly the limit, and no victim expires later than a surviving candidate |
| DnsCaches.RecordVictims | qubes_snitch/dns_cache_runtime.py:61-70 | the same for records of names |
| DnsCaches.DnsCache.RemoveOldIps | qubes_snitch/dns_cache_runtime.py:106-114 | deletes exactly the hints the name's record lists and still owns |
| DnsCaches.DnsCache.PruneRecords | qubes_snitch/dns_cache_runtime.py:23-32 | every record keeps exactly the labels that still have their hint |
| DnsCaches.DnsCache.EvictHints | qubes_snitch/dns_cache_runtime.py:35-58 | nothing within the limit, otherwise the cut above and a pruned qname cache |
| DnsCaches.DnsCache.EvictRecords | qubes_snitch/dns_cache_runtime.py:61-82 | the same for names, hints untouched |
| DnsCaches.DnsCache.WriteLabels | qubes_snitch/dns_cache_runtime.py:117-124 | old hints of the name out, its record and new hints in, as one map |
| DnsCaches.DnsCache.StoreDnsLabels | qubes_snitch/dns_cache_runtime.py:117-128 | the write and the four eviction passes in order |
| DnsCaches.DnsCache.DropSource | qubes_snitch/policy_runtime.py:75-79 | the two deletion loops leave no entry of the source and every other entry as it was |
| DnsCacheRuns.HintsAgreeWithLog | qubes_snitch/dns_cache_runtime.py:117-128 | over any interleaving of stores, evictions and source cleanups, a present hint is the answer of the most recent store for that source and address, and none survives a cleanup |
| DnsCacheRuns.FreshLabelIsTheLatestAnswer | qubes_snitch/dns_cache_runtime.py:157-163 | the label read as fresh is the answer of the most recent store for that source and address, before the end of its TTL; without one that store never was, was evicted or is over |
| DnsCacheRuns.CachesStayInCaps | qubes_snitch/dns_cache_runtime.py:35-82 | both maps respect the per-source cap for every source and the global cap, in every reachable state |
| DnsCacheRuns.VictimsExpireFirst | qubes_snitch/dns_cache_runtime.py:35-58 | over a whole store no evicted hint expires later than a surviving hint of its source |
| DnsCacheRuns.EvictedNamesExpireFirst | qubes_snitch/dns_cache_runtime.py:61-82 | the same for names |
| DnsCacheRuns.EveryHintIsBacked | qubes_snitch/dns_cache_runtime.py:23-32 | while no name was evicted every hint is listed by its name's record with the same label and expiry |
| DnsCacheRuns.EvictionLeavesLiveLabels | qubes_snitch/dns_cache_runtime.py:23-58 | after a store that evicted hints, every record kept lists exactly those of its labels whose hint is still there |
| DnsCacheRuns.StoreAndOtherNames | qubes_snitch/dns_cache_runtime.py:117-124 | before eviction a store deletes no hint of another name, and replaces one if and only if its address is in the new answer for its source |
| DnsCacheRuns.SharedAddressIsRelabelled | qubes_snitch/dns_cache_runtime.py:122-123 | a run of two names and one shared address, nothing evicted, in which the second store takes the hint over |
| DnsCacheRuns.RefreshForgetsListed | qubes_snitch/dns_cache_runtime.py:106-114 | a refresh leaves stale exactly the hints of its name that its record did not list |
| DnsCacheRuns.RefreshLeavesNoStaleHint | qubes_snitch/dns_cache_runtime.py:117-128 | while no name was evicted a refresh leaves no address outside the new answer with that name |
| DnsCacheRuns.EvictedNameLeavesStaleHint | qubes_snitch/dns_cache_runtime.py:61-70 | with room for one name, a run in which such an address is left |
| LogLimiter.LogBuckets.LogAllowed | qubes_snitch/alerts_runtime.py:13-32 | refill, charge, move to the end and evict, as one step on the ordered table |
| LogLimiter.LogBuckets.EvictOldest | qubes_snitch/alerts_runtime.py:29-31 | the loop keeps exactly the most recently used keys |
| LogRuns.LogRateIsBounded | qubes_snitch/alerts_runtime.py:13-32 | in any stretch of any run, (allowed calls of a key - burst) * seconds is at most the time it takes * count, if fewer than log_bucket_max_entries other keys are used between consecutive uses of it |
| LogRuns.NextUseFinds | qubes_snitch/alerts_runtime.py:18-23 | what the next use of a surviving bucket finds, exactly: what was left plus count for every seconds since, up to the burst |
| LogRuns.SuppressedIff | qubes_snitch/alerts_runtime.py:22-24 | when that use is suppressed, exactly; after the last token was taken, while less than seconds/count has passed |
| LogRuns.BucketSurvivesIff | qubes_snitch/alerts_runtime.py:25-31 | after its last use a bucket is still there if and only if fewer than log_bucket_max_entries other keys were used |
| LogRuns.EvictedBudgetRestarts | qubes_snitch/alerts_runtime.py:18-20 | otherwise the next use of the key finds a full bucket and is allowed, however soon it comes, so the bound needs its condition |
| LogRuns.EveryCallSequenceRuns | qubes_snitch/alerts_runtime.py:13-32 | every sequence of calls on a forward clock has a run |
| LogRuns.BucketSurvives | qubes_snitch/alerts_runtime.py:26-31 | the surviving bucket is the one the last use left, and every key used more recently was used since |
| LogRuns.TablesAreSound | qubes_snitch/alerts_runtime.py:25-31 | the table never exceeds its cap, and every bucket holds 0 to burst tokens and the time of its key's last use |
| LogRuns.IdleKeyIsLogged | qubes_snitch/alerts_runtime.py:18-22 | a key that was never used, or not for seconds/count, is always allowed |
| Sources.ParseSourcesOutput | qubes_snitch/config.py:204-245 | the loop with its early errors computes the maps or the first error of the text |
| Sources.AcceptedMapsAreInverse | qubes_snitch/config.py:235-245 | for any accepted text by_name and by_ip are inverse, no address is listed twice, names are listed once and labels and display names cover exactly them |
| Sources.MapsAreExactlyTheRows | qubes_snitch/config.py:218-245 | an address text is mapped to a source if and only if some accepted row says so |
| Sources.Ip4TextIsCanonical | qubes_snitch/config.py:232-236 | an IPv4 address has one accepted text, so a duplicate check on texts is one on addresses |
| AddressText.Ip4TextIsDottedQuad | qubes_snitch/config.py:232-236 | a text is read as an address if and only if it is its dotted quad, four decimal octets most significant first |
| AddressText.RowOfLine | qubes_snitch/config.py:218-221 | a line is a row if and only if it is its five fields with bars between them |
| AddressText.TextAcceptedIff | qubes_snitch/config.py:204-245 | a text is accepted if and only if it is ASCII, every line is blank or a row that has no address, belongs to nobody or carries a dotted quad, no address is filed twice and all rows of a source have one label |
| AddressText.SourceOfRow | qubes_snitch/config.py:180-229 | which rows are taken, and the policy source each is filed under |
| AddressText.RowsAreOnRecord | qubes_snitch/config.py:235-245 | in an accepted text every filed row has its source's one label and its own display name on record |
| Sources.PolicyIsPerVm | qubes_snitch/config.py:180-194 | two VMs share a policy source if and only if both are disposables of one template that is not the default one |
| Sources.NumberedSourceIsDefaultDisposable | qubes_snitch/config.py:46-51 | a policy source has a numbered name if and only if its row is a default disposable, and then it is that VM's own name |
| NetVmWalk.VmUsesSnitch | templates/dom0/usr/local/lib/qubes-snitch/sources.py:47-55 | ends on every NetVM map, cyclic ones included, and is true if and only if some finite number of live links leads from the VM to the Snitch VM |
| NetVmWalk.LoopStaysSeen | templates/dom0/usr/local/lib/qubes-snitch/sources.py:50-54 | once the walk meets a VM again it can never meet a new one |

## Left out

- nft text: quoting, log prefixes, counters and the hashed chain names; a source name is its chain, as if the 4-byte hash never collided.
- The input hook chain (`render_local_input_chain`) and IPv6: only the forward hook is evaluated.
- Token accounting of the kernel's `limit`: it is the limiter argument of the evaluator.
- Subprocesses, sockets, NFQUEUE bindings, QubesDB, systemd, syslog and notifications: their outcomes are arguments (`load`, `writeOk`, the published source map).
- dnspython's wire parser and resolver, PTR lookups, YAML and XML: decoded messages, answers and files are arbitrary inputs, and a file is the policy it encodes.
- `/etc/services` and port text: rule ports are already normalised numbers or ranges; protocols other than tcp, udp and icmp cannot be saved.
- Rule-file validation errors at startup and hand edits while the daemon runs: files are valid and change only through answers and cleanups; reading them back never fails.
- A change of DNS resolution across a restart: `RestartReproducesPolicy` asks for the same resolution.
- The refresh interval and the qrexec call itself; a refresh event carries the map it read, whenever that was.
- `read_config`, the terminal interface, colours and wording, and the labels shown beside prompts; whether only labels changed is an argument of a refresh.
- The display-name logic behind a prompt (`lazy_dns_name`, parallel refreshes): a store is an event with any answer and TTL; the daemon model keeps the cache cleanups of a refresh apart as `DropSource`, because stores take only the cache lock.
- Floating point in `log_allowed`: balances are reals.
- Daemons.Daemon.HandlePacket: reads the policy at one moment; HandleAttributed and the methods it calls take the earlier readings as arguments and cover changes in between.
- Incarnations.RulesBelongToTheVm: speaks of the VM dom0 listed when a prompt was raised; what runs under a name between two refreshes is not observed.
- EndToEnd.PassesIffPolicyAllows: leaves malformed packets and packets connection tracking calls invalid to OddPackets, and replies to ReplyLimits.
- A fallback load that fails too: which table nft then leaves is an argument (`FallbackFailed`); the daemon stops either way.
