/** The daemon's shared state and its lock-protected steps, as functions on values
    (qubes_snitch/queue.py, policy_runtime.py, sources_runtime.py, packet_handlers.py). */
module Runtime {
  import opened Wrappers
  import opened DnsNames
  import opened Policy
  import opened Nft

  // ------------------------------------------------------------------ the queue

  datatype Entry = Entry(key: Key, request: Request, id: nat)

  datatype QueueState = QueueState(pending: seq<Entry>, next: nat)

  predicate HasKey(pending: seq<Entry>, key: Key) {
    exists i :: 0 <= i < |pending| && pending[i].key == key
  }

  predicate HasId(pending: seq<Entry>, id: nat) {
    exists i :: 0 <= i < |pending| && pending[i].id == id
  }

  /** The prompt is still the one that was issued under this id. */
  predicate IsPending(pending: seq<Entry>, key: Key, id: nat) {
    exists i :: 0 <= i < |pending| && pending[i].key == key && pending[i].id == id
  }

  /** queue_question: one prompt per question, never more than size. */
  function Enqueue(q: QueueState, r: Request, size: nat): QueueState {
    if HasKey(q.pending, QuestionKey(r)) || |q.pending| >= size then q
    else QueueState(q.pending + [Entry(QuestionKey(r), r, q.next)], q.next + 1)
  }

  /** remove_pending_for_source, for any number of sources. */
  function WithoutSources(pending: seq<Entry>, names: set<Name>): seq<Entry> {
    if pending == [] then []
    else (if pending[0].key.source in names then [] else [pending[0]]) + WithoutSources(pending[1..], names)
  }

  function WithoutKey(pending: seq<Entry>, key: Key): seq<Entry> {
    if pending == [] then []
    else if pending[0].key == key then pending[1..]
    else [pending[0]] + WithoutKey(pending[1..], key)
  }

  /** discard_pending_decision */
  function Discard(q: QueueState, key: Key, id: nat): QueueState {
    if IsPending(q.pending, key, id) then q.(pending := WithoutKey(q.pending, key)) else q
  }

  /** Another prompt that the answer to r for a resolved address set also covers. */
  predicate Sibling(other: Request, r: Request, resolved: seq<Addr>) {
    && other.question.None?
    && other.source == r.source && other.proto == r.proto
    && RequestPort(other.dport) == RequestPort(r.dport)
    && other.dst in resolved
  }

  /** remove_pending_hostname_set */
  function WithoutSiblings(pending: seq<Entry>, r: Request, resolved: seq<Addr>): seq<Entry> {
    if pending == [] then []
    else (if Sibling(pending[0].request, r, resolved) then [] else [pending[0]]) + WithoutSiblings(pending[1..], r, resolved)
  }

  // ------------------------------------------------------------------ the state

  /** Everything POLICY_LOCK protects, the rule files and the loaded table. failed stands
      for a daemon that has stopped on a fatal error. */
  datatype Core = Core(sources: SourceMap, rules: Rules, files: Rules, queue: QueueState, table: Table, failed: bool)

  /** NUMBERED_DISPVM_RE: disp followed by one to four digits. */
  predicate Numbered(name: Name) {
    StartsWith(name, "disp") && 5 <= |name| <= 8 && IsDigits(name[4..])
  }

  function IpsOf(sources: SourceMap, name: Name): Option<seq<Addr>> {
    if sources == [] then None
    else if sources[0].name == name then Some(sources[0].ips)
    else IpsOf(sources[1..], name)
  }

  /** prompt_source_current, and the same test at the start of queue_prompt. */
  predicate SourceCurrent(sources: SourceMap, r: Request) {
    var ips := IpsOf(sources, r.source);
    ips.Some? && r.src in ips.value
  }

  function FileOf(files: Rules, name: Name): SourcePolicy {
    if name in files then files[name] else EMPTY_POLICY
  }

  /** ensure_rule_entry */
  function EnsureEntry(c: Core, name: Name): Core {
    if name in c.rules then c else c.(rules := c.rules[name := FileOf(c.files, name)])
  }

  /** queue_prompt: the new state and the action found by the recheck, if any. */
  function PromptCore(c: Core, r: Request, size: nat): Core {
    if !SourceCurrent(c.sources, r) then c
    else
      var e := EnsureEntry(c, r.source);
      if MatchingAction(e.rules, r).Some? then e else e.(queue := Enqueue(e.queue, r, size))
  }

  function PromptAction(c: Core, r: Request): Option<Action> {
    if !SourceCurrent(c.sources, r) then None else MatchingAction(EnsureEntry(c, r.source).rules, r)
  }

  /** The locked part of add_runtime_request_fields; a vanished address is a KeyError. */
  function Attribute(c: Core, src: Addr): Core {
    match Owner(c.sources, src)
    case Some(name) => EnsureEntry(c, name)
    case None => c.(failed := true)
  }

  // ------------------------------------------------------------ source refreshes

  /** A source map is a dict: no name is listed twice. */
  ghost predicate DistinctNames(sources: SourceMap) {
    forall i, j :: 0 <= i < j < |sources| ==> sources[i].name != sources[j].name
  }

  /** Equality of the source dicts: the listing order does not count, each name's address
      list does. */
  predicate SameSources(a: SourceMap, b: SourceMap) {
    SourceNames(a) == SourceNames(b) && forall n :: n in SourceNames(a) ==> IpsOf(a, n) == IpsOf(b, n)
  }

  /** What both cleanups do to a set of names: rules, file and prompts go together. */
  function DropNames(c: Core, names: set<Name>): Core {
    c.(rules := c.rules - names, files := c.files - names,
       queue := c.queue.(pending := WithoutSources(c.queue.pending, names)))
  }

  /** Numbered names listed before and after with different addresses. */
  function ReusedNames(before: SourceMap, after: SourceMap): set<Name> {
    set n | n in SourceNames(before) && Numbered(n) && IpsOf(after, n).Some? && IpsOf(after, n) != IpsOf(before, n)
  }

  /** Numbered names with rules that are no longer listed. */
  function VanishedNames(c: Core): set<Name> {
    set n | n in c.rules && n !in SourceNames(c.sources) && Numbered(n)
  }

  function EnsureNames(c: Core, names: set<Name>): Core {
    c.(rules := c.rules + map n | n in names - c.rules.Keys :: FileOf(c.files, n))
  }

  /** ensure_all_known_rule_entries */
  function EnsureAll(c: Core): Core {
    EnsureNames(c, SourceNames(c.sources))
  }

  predicate Covered(c: Core) {
    forall e :: e in c.sources ==> e.name in c.rules
  }

  /** render_fail_closed_nft */
  function FailClosed(): Table {
    Table([Line([StateInvalid], true, RejectPacket), Line([NfprotoIpv4], false, Queue), Line([], true, RejectPacket)], map[])
  }

  /** The table systemd loads before the daemon starts: it queues nothing. */
  const STATIC_TABLE := Table([Line([NfprotoIpv4], false, RejectPacket)], map[])

  /** What the nft commands of load_nft did: the check may refuse the file, the live load may
      fail, and so may the fallback, which leaves whatever nft left. */
  datatype LoadOutcome = Loaded | CheckFailed | LoadFailed | FallbackFailed(left: Table)

  /** load_nft: a refused check keeps the table that was loaded, a failed live load installs the
      fail-closed one; both raise. */
  function LoadNft(c: Core, load: LoadOutcome): Core {
    if !Covered(c) then c.(failed := true)
    else
      match load
      case Loaded => c.(table := Rendered(c.sources, c.rules))
      case CheckFailed => c.(failed := true)
      case LoadFailed => c.(table := FailClosed(), failed := true)
      case FallbackFailed(left) => c.(table := left, failed := true)
  }

  function Cleaned(c: Core, sources: SourceMap): Core {
    var published := c.(sources := sources);
    var reused := DropNames(published, ReusedNames(c.sources, sources));
    DropNames(reused, VanishedNames(reused))
  }

  /** The locked part of refresh_sources_and_nft; relabelled is true when only labels or
      display names differ. */
  function Refresh(c: Core, sources: SourceMap, relabelled: bool, load: LoadOutcome): Core {
    if SameSources(sources, c.sources) && !relabelled then c
    else LoadNft(EnsureAll(Cleaned(c, sources)), load)
  }

  // --------------------------------------------------------------------- answers

  /** prepare_hostname_decision: true when the answer may proceed. */
  predicate Prepared(r: Request, decision: Decision, resolved: Option<seq<Addr>>) {
    decision.ForHostname() ==>
      && AHint(r.host).Some? && ValidateDestName(AHint(r.host).value).Some?
      && resolved.Some? && |resolved.value| > 1 && r.dst in resolved.value
  }

  function Resolved(decision: Decision, resolved: Option<seq<Addr>>): seq<Addr> {
    if decision.ForHostname() && resolved.Some? then resolved.value else []
  }

  /** append_rule: file first, memory only after the write succeeded. */
  function AppendRule(c: Core, r: Request, decision: Decision, resolved: seq<Addr>, writeOk: bool): Core {
    if Numbered(r.source) && r.source !in SourceNames(c.sources) then c.(failed := true)
    else
      var file := AppendAnswer(FileOf(c.files, r.source), r, decision, []);
      var memory := AppendAnswer(if r.source in c.rules then c.rules[r.source] else EMPTY_POLICY, r, decision, resolved);
      if file.None? || memory.None? || !writeOk then c.(failed := true)
      else c.(files := c.files[r.source := file.value], rules := c.rules[r.source := memory.value])
  }

  /** The queue after a prompt has been claimed by its answer. */
  function Claim(q: QueueState, key: Key, r: Request, decision: Decision, resolved: seq<Addr>): QueueState {
    var rest := WithoutKey(q.pending, key);
    q.(pending := if decision.ForHostname() then WithoutSiblings(rest, r, resolved) else rest)
  }

  /** Claiming the prompt and, while its source is still current, saving its rule. */
  function Settle(c: Core, claim: Entry, decision: Decision, resolved: seq<Addr>, writeOk: bool): Core {
    var claimed := c.(queue := Claim(c.queue, claim.key, claim.request, decision, resolved));
    if SourceCurrent(c.sources, claim.request) then AppendRule(claimed, claim.request, decision, resolved, writeOk) else claimed
  }

  /** save_pending_decision, with save_rule and reload_nft of the CLI thread. */
  function Save(c: Core, claim: Entry, decision: Decision, resolved: Option<seq<Addr>>, writeOk: bool, load: LoadOutcome): Core {
    if !Prepared(claim.request, decision, resolved) then c.(failed := true)
    else if !IsPending(c.queue.pending, claim.key, claim.id) then c
    else
      var settled := Settle(c, claim, decision, Resolved(decision, resolved), writeOk);
      if settled.failed then settled else LoadNft(settled, load)
  }

  // --------------------------------------------------------------------- startup

  function Strip(dest: Dest): Dest {
    if dest.Hostname? then dest.(resolved := []) else dest
  }

  /** What is written to the rule file: everything but the resolved addresses. */
  function StripRules(rules: seq<FlowRule>): seq<FlowRule> {
    seq(|rules|, i requires 0 <= i < |rules| => rules[i].(dest := Strip(rules[i].dest)))
  }

  function StripPolicy(p: SourcePolicy): SourcePolicy {
    SourcePolicy(StripRules(p.ip), p.dns)
  }

  type Resolver = string -> seq<Addr>

  /** runtime_flow_rule */
  function ResolveRule(rule: FlowRule, dns: Resolver): FlowRule {
    if rule.dest.Hostname? then rule.(dest := Hostname(rule.dest.name, dns(rule.dest.name))) else rule
  }

  function ResolvePolicy(p: SourcePolicy, dns: Resolver): SourcePolicy {
    SourcePolicy(seq(|p.ip|, i requires 0 <= i < |p.ip| => ResolveRule(p.ip[i], dns)), p.dns)
  }

  /** load_policy_without_sources: numbered files are deleted, the others loaded. The table is
      still the one systemd left. */
  function LoadedPolicy(files: Rules, sources: SourceMap, dns: Resolver): Core {
    var kept := map n | n in files && !Numbered(n) :: files[n];
    Core(sources, map n | n in kept :: ResolvePolicy(kept[n], dns), kept, QueueState([], 1), STATIC_TABLE, false)
  }

  /** With refresh_sources_required: the first source map is published and the table loaded. */
  function Startup(files: Rules, sources: SourceMap, dns: Resolver, load: LoadOutcome): Core {
    var loaded := LoadedPolicy(files, sources, dns);
    LoadNft(EnsureAll(DropNames(loaded, VanishedNames(loaded))), load)
  }
}
