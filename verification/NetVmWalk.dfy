/** Does a VM's traffic pass through the Snitch VM?
    (templates/dom0/usr/local/lib/qubes-snitch/sources.py:25-55) */
module NetVmWalk {
  import opened Wrappers

  /** A link the walk follows: a name that is neither missing, empty nor "-". */
  predicate Live(vm: Option<string>) {
    vm.Some? && vm.value != "" && vm.value != "-"
  }

  function NextVm(netvms: map<string, string>, vm: string): Option<string> {
    if vm in netvms then Some(netvms[vm]) else None
  }

  /** The VM n links up the chain, while every link on the way is live. */
  function Up(netvms: map<string, string>, name: string, n: nat): Option<string> {
    if n == 0 then Some(name)
    else
      var below := Up(netvms, name, n - 1);
      if Live(below) then NextVm(netvms, below.value) else None
  }

  /** Some finite number of live links leads from the VM to the Snitch VM. */
  ghost predicate LeadsTo(netvms: map<string, string>, name: string, snitch: string) {
    exists n: nat :: Live(Up(netvms, name, n)) && Up(netvms, name, n) == Some(snitch)
  }

  /** Every VM seen before step n, and nothing else, is in the set. */
  ghost predicate Walked(netvms: map<string, string>, name: string, n: nat, seen: set<string>) {
    && (forall i :: 0 <= i < n ==> Live(Up(netvms, name, i)) && Up(netvms, name, i).value in seen)
    && forall vm :: vm in seen ==> exists i :: 0 <= i < n && Up(netvms, name, i) == Some(vm)
  }

  /** Once a VM repeats, the chain only revisits VMs it has seen. */
  lemma {:induction false} LoopStaysSeen(netvms: map<string, string>, name: string, n: nat, seen: set<string>, m: nat)
    requires Walked(netvms, name, n, seen)
    requires Live(Up(netvms, name, n)) && Up(netvms, name, n).value in seen
    ensures Live(Up(netvms, name, m)) && Up(netvms, name, m).value in seen
  {
    if m > n {
      LoopStaysSeen(netvms, name, n, seen, m - 1);
      var i :| 0 <= i < n && Up(netvms, name, i) == Up(netvms, name, m - 1);
      assert Up(netvms, name, i + 1) == Up(netvms, name, m);
      assert i + 1 < n ==> Up(netvms, name, i + 1).value in seen;
    }
  }

  /** Past a dead link nothing is live. */
  lemma {:induction false} DeadStaysDead(netvms: map<string, string>, name: string, n: nat, m: nat)
    requires !Live(Up(netvms, name, n)) && n <= m
    ensures !Live(Up(netvms, name, m))
  {
    if n < m {
      DeadStaysDead(netvms, name, n, m - 1);
    }
  }

  /** A walk that stopped without seeing a VM never reaches it, however long it went on. */
  lemma StoppedWalkMisses(netvms: map<string, string>, name: string, n: nat, seen: set<string>, snitch: string)
    requires Walked(netvms, name, n, seen) && snitch !in seen
    requires Live(Up(netvms, name, n)) ==> Up(netvms, name, n).value in seen
    ensures !LeadsTo(netvms, name, snitch)
  {
    forall m: nat | Live(Up(netvms, name, m)) ensures Up(netvms, name, m) != Some(snitch) {
      if Live(Up(netvms, name, n)) {
        LoopStaysSeen(netvms, name, n, seen, m);
      } else if n <= m {
        DeadStaysDead(netvms, name, n, m);
      }
    }
  }

  /** vm_uses_snitch: every step sees a new VM, and only VMs with a link can be followed by another
      step, so the walk ends on every map, cyclic or not. */
  method VmUsesSnitch(name: string, netvms: map<string, string>, snitch: string) returns (uses: bool)
    ensures uses <==> LeadsTo(netvms, name, snitch)
  {
    var seen: set<string> := {};
    var vm := Some(name);
    ghost var n := 0;
    while Live(vm) && vm.value !in seen
      invariant vm == Up(netvms, name, n)
      invariant Walked(netvms, name, n, seen) && snitch !in seen
      decreases netvms.Keys - seen, Live(vm)
    {
      if vm.value == snitch {
        return true;
      }
      seen := seen + {vm.value};
      vm := NextVm(netvms, vm.value);
      n := n + 1;
    }
    StoppedWalkMisses(netvms, name, n, seen, snitch);
    return false;
  }
}
