/** What source maps and the prompt queue say, in terms of their entries. */
module StateMeaning {
  import opened Wrappers
  import opened DnsNames
  import opened Policy
  import opened PolicyMeaning
  import opened Nft
  import opened Runtime

  /** The map lists this address under this name. */
  ghost predicate ListedAt(sources: SourceMap, name: Name, ip: Addr) {
    exists e :: e in sources && e.name == name && ip in e.ips
  }

  /** Entry i is the first that lists the address. */
  predicate FirstListing(sources: SourceMap, ip: Addr, i: nat) {
    i < |sources| && ip in sources[i].ips && forall j :: 0 <= j < i ==> ip !in sources[j].ips
  }

  /** An address belongs to the first entry that lists it. */
  lemma {:induction false} OwnerMeaning(sources: SourceMap, ip: Addr, name: Name)
    ensures Owner(sources, ip) == Some(name) <==> exists i: nat :: FirstListing(sources, ip, i) && sources[i].name == name
  {
    if sources != [] {
      OwnerMeaning(sources[1..], ip, name);
      if ip in sources[0].ips {
        assert FirstListing(sources, ip, 0);
      } else {
        FirstListingTail(sources, ip);
        if Owner(sources[1..], ip) == Some(name) {
          var i: nat :| FirstListing(sources[1..], ip, i) && sources[1..][i].name == name;
          assert FirstListing(sources, ip, i + 1) && sources[i + 1].name == name;
        }
        if i: nat :| FirstListing(sources, ip, i) && sources[i].name == name {
          assert FirstListing(sources[1..], ip, i - 1) && sources[1..][i - 1].name == name;
        }
      }
    }
  }

  lemma OwnedIsListed(sources: SourceMap, ip: Addr)
    ensures Owner(sources, ip).Some? <==> exists e :: e in sources && ip in e.ips
  {
    if Owner(sources, ip).Some? {
      OwnerMeaning(sources, ip, Owner(sources, ip).value);
      var i: nat :| FirstListing(sources, ip, i) && sources[i].name == Owner(sources, ip).value;
      assert sources[i] in sources;
    } else {
      UnownedNotListed(sources, ip);
    }
  }

  lemma {:induction false} UnownedNotListed(sources: SourceMap, ip: Addr)
    requires Owner(sources, ip).None?
    ensures forall e :: e in sources ==> ip !in e.ips
  {
    if sources != [] {
      UnownedNotListed(sources[1..], ip);
      assert forall e :: e in sources <==> e == sources[0] || e in sources[1..];
    }
  }

  lemma FirstListingTail(sources: SourceMap, ip: Addr)
    requires sources != [] && ip !in sources[0].ips
    ensures forall i: nat :: FirstListing(sources[1..], ip, i) ==> FirstListing(sources, ip, i + 1)
    ensures forall i: nat :: FirstListing(sources, ip, i) ==> i > 0 && FirstListing(sources[1..], ip, i - 1)
  {
    assert forall j :: 0 <= j < |sources| - 1 ==> sources[1..][j] == sources[j + 1];
    forall i: nat | FirstListing(sources[1..], ip, i)
      ensures FirstListing(sources, ip, i + 1)
    {
      forall j | 0 <= j < i + 1
        ensures ip !in sources[j].ips
      {
        assert j > 0 ==> sources[j] == sources[1..][j - 1];
      }
    }
  }

  /** The addresses of a name are those of an entry with it, and of the only one in a dict. */
  lemma {:induction false} IpsOfMeaning(sources: SourceMap, name: Name)
    ensures IpsOf(sources, name).Some? ==> SourceEntry(name, IpsOf(sources, name).value) in sources
    ensures DistinctNames(sources) ==> forall e :: e in sources && e.name == name ==> IpsOf(sources, name) == Some(e.ips)
  {
    if sources != [] {
      IpsOfMeaning(sources[1..], name);
      assert DistinctNames(sources) ==> DistinctNames(sources[1..]);
      assert forall e :: e in sources <==> e == sources[0] || e in sources[1..];
      if DistinctNames(sources) && sources[0].name == name {
        forall e | e in sources && e.name == name
          ensures e == sources[0]
        {
          var i :| 0 <= i < |sources| && sources[i] == e;
        }
      }
    }
  }

  /** A request's source is current when the map still lists its address under its name. */
  lemma SourceCurrentMeaning(sources: SourceMap, r: Request)
    ensures SourceCurrent(sources, r) ==> ListedAt(sources, r.source, r.src)
    ensures DistinctNames(sources) && ListedAt(sources, r.source, r.src) ==> SourceCurrent(sources, r)
  {
    IpsOfMeaning(sources, r.source);
  }

  /** Some pending prompt asks the same. */
  ghost predicate AskedAlready(pending: seq<Entry>, r: Request) {
    exists e :: e in pending && SameQuestion(e.request, r)
  }

  lemma KeyFindsAsked(pending: seq<Entry>, r: Request)
    requires forall e :: e in pending ==> e.key == QuestionKey(e.request)
    ensures HasKey(pending, QuestionKey(r)) <==> AskedAlready(pending, r)
  {
    forall i | 0 <= i < |pending|
      ensures pending[i].key == QuestionKey(r) <==> SameQuestion(pending[i].request, r)
    {
      QuestionKeyMeaning(pending[i].request, r);
    }
  }

  /** The host text is a cached A name that can be saved as a destination. */
  ghost predicate NamesHost(host: Option<string>) {
    exists name :: host == Some("A " + name) && LiveNameSupported(NormalizeName(name), "A")
  }

  lemma DestNameMeaning(name: string)
    ensures ValidateDestName(name).Some? <==> LiveNameSupported(NormalizeName(name), "A")
    ensures ValidateDestName(name).Some? ==> ValidateDestName(name).value == NormalizeName(name)
  {
    SupportedTableKnows();
    SupportedTypesAreAccepted("A", SUPPORTED_TABLE);
    if StartsWith(NormalizeName(name), "*.") {
      if LiveNameSupported(NormalizeName(name), "A") {
        LiveNameIsNormal(NormalizeName(name), "A");
      }
    } else {
      ValidateAgreesWithLivePath(DnsQuestion(name, "A"), SUPPORTED_TABLE);
    }
  }

  lemma NamesHostMeaning(host: Option<string>)
    ensures NamesHost(host) <==> AHint(host).Some? && ValidateDestName(AHint(host).value).Some?
  {
    if AHint(host).Some? {
      DestNameMeaning(AHint(host).value);
      assert host.value == host.value[..2] + host.value[2..];
    }
    if NamesHost(host) {
      var name :| host == Some("A " + name) && LiveNameSupported(NormalizeName(name), "A");
      assert host.value[..2] == "A " && host.value[2..] == name;
    }
  }

  /** The rule a flow answer saves: one address, or the host the prompt names with its resolved set, under
      the protocol, port and action that were asked about, with the text the prompt showed. */
  lemma SavedFlowRule(r: Request, decision: Decision, resolved: seq<Addr>)
    requires r.question.None? && FlowRuleFor(r, decision, resolved).Some?
    ensures var rule := FlowRuleFor(r, decision, resolved).value;
            && rule.proto == r.proto
            && rule.port == (if r.dport.None? || r.dport == Some(0) then AnyPort else OnePort(r.dport.value))
            && rule.action == (if decision == DecideAllow || decision == DecideAllowDns then Allow else Reject)
            && if decision == DecideAllow || decision == DecideReject then
                 && rule.dest == Network(r.dst, 32)
                 && rule.ptr == if r.host.None? || r.host == Some("") then "no PTR" else r.host.value
               else
                 && rule.dest.Hostname? && rule.dest.resolved == resolved
                 && r.host == Some("A " + rule.ptr) && Normalized(rule.ptr, rule.dest.name)
  {
    if decision.ForHostname() {
      var name := AHint(r.host).value;
      DestNameMeaning(name);
      NormalizeMeaning(name, NormalizeName(name));
      assert r.host.value == r.host.value[..2] + r.host.value[2..];
    }
  }

  /** Exactly when there is one: a port for tcp and udp and none for icmp, a host name the live filter takes
      for a host name decision, and no other protocol. */
  lemma FlowRuleIsSavedIff(r: Request, decision: Decision, resolved: seq<Addr>)
    ensures FlowRuleFor(r, decision, resolved).Some? <==>
            && (match r.proto
                case Tcp => r.dport.Some? && 1 <= r.dport.value <= 65535
                case Udp => r.dport.Some? && 1 <= r.dport.value <= 65535
                case Icmp => r.dport.None? || r.dport == Some(0)
                case Other(_) => false)
            && (decision == DecideAllowDns || decision == DecideRejectDns ==> NamesHost(r.host))
  {
    NamesHostMeaning(r.host);
  }
}
