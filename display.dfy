/** The display surface, reduced to a log of the commands it accepted. Each
    call into the SSD1306 driver may fail; which calls fail is fixed up front by
    a set of operation numbers, standing for the hardware's behaviour. */
module Display {

  /** The drawing commands the core issues. `Status` stands for `set_status`
      (clear, frame, centred text, flush); `FreqText(bin)` for the
      "Freq: … Hz" label of dominant bin `bin`. */
  datatype Command =
    | Status(text: string)
    | Clear
    | FreqText(bin: nat)
    | Line(x: int, yStart: int, yEnd: int)
    | Flush

  /** What issuing a script of commands, stopping at the first failure, did:
      the commands accepted, the number of driver calls made, and whether all
      of them succeeded. */
  datatype Outcome = Outcome(issued: seq<Command>, attempted: nat, ok: bool)

  /** No driver call numbered in [lo, hi) fails. */
  predicate NoFaultIn(faults: set<nat>, lo: nat, hi: nat) {
    forall f :: f in faults ==> f < lo || hi <= f
  }

  /** The number of calls, out of `count` starting at call number `ops`, made
      before the first one that fails (`count` if none fails). */
  function FirstFault(count: nat, ops: nat, faults: set<nat>): (k: nat)
    ensures k <= count
    ensures k < count ==> ops + k in faults
    decreases count
  {
    if count == 0 || ops in faults then 0 else 1 + FirstFault(count - 1, ops + 1, faults)
  }

  /** No call before the first fault fails. */
  lemma {:induction false} FirstFaultClean(count: nat, ops: nat, faults: set<nat>)
    ensures NoFaultIn(faults, ops, ops + FirstFault(count, ops, faults))
    decreases count
  {
    if count > 0 && ops !in faults {
      FirstFaultClean(count - 1, ops + 1, faults);
    }
  }

  /** The first fault is the only call that fails before every later one: no
      fault in the first `k` calls and one at call `k` pin it down. */
  lemma {:induction false} FirstFaultAt(count: nat, ops: nat, faults: set<nat>, k: nat)
    requires k <= count && NoFaultIn(faults, ops, ops + k)
    requires k < count ==> ops + k in faults
    ensures FirstFault(count, ops, faults) == k
    decreases count
  {
    if k > 0 {
      FirstFaultAt(count - 1, ops + 1, faults, k - 1);
    }
  }

  /** Two adjacent fault-free ranges of calls make one. */
  lemma JoinFaultFree(faults: set<nat>, lo: nat, mid: nat, hi: nat)
    requires lo <= mid <= hi && NoFaultIn(faults, lo, mid) && NoFaultIn(faults, mid, hi)
    ensures NoFaultIn(faults, lo, hi)
  {
  }

  /** Issue `script` from operation number `ops` on, stopping at the first call
      that fails, as each `?` after a draw call does. */
  function Attempt(script: seq<Command>, ops: nat, faults: set<nat>): (o: Outcome)
    ensures o.ok ==> o.issued == script && o.attempted == |script|
    ensures !o.ok ==> |o.issued| < |script| && o.issued == script[..|o.issued|]
    ensures !o.ok ==> o.attempted == |o.issued| + 1 && ops + |o.issued| in faults
  {
    var k := FirstFault(|script|, ops, faults);
    if k == |script| then Outcome(script, k, true) else Outcome(script[..k], k + 1, false)
  }

  /** Every accepted command's call succeeded, and a script is accepted whole
      exactly when none of its calls fails. */
  lemma AttemptClean(script: seq<Command>, ops: nat, faults: set<nat>)
    ensures NoFaultIn(faults, ops, ops + |Attempt(script, ops, faults).issued|)
    ensures Attempt(script, ops, faults).ok <==> NoFaultIn(faults, ops, ops + |script|)
  {
    FirstFaultClean(|script|, ops, faults);
    if NoFaultIn(faults, ops, ops + |script|) {
      FirstFaultAt(|script|, ops, faults, |script|);
    }
  }

  /** Issuing stops at the first fault: with no fault among the first k calls
      and one at call k, exactly the first k commands are accepted. */
  lemma AttemptStopsAt(script: seq<Command>, ops: nat, faults: set<nat>, k: nat)
    requires k < |script|
    requires NoFaultIn(faults, ops, ops + k)
    requires ops + k in faults
    ensures Attempt(script, ops, faults) == Outcome(script[..k], k + 1, false)
  {
    FirstFaultAt(|script|, ops, faults, k);
  }

  /** Concatenation of command sequences is associative. */
  lemma AppendAssoc(a: seq<Command>, b: seq<Command>, c: seq<Command>)
    ensures (a + b) + c == a + (b + c)
  {
  }

  /** A single command is accepted exactly when its call is not a fault. */
  lemma AttemptOne(c: Command, ops: nat, faults: set<nat>)
    ensures Attempt([c], ops, faults) == if ops in faults then Outcome([], 1, false) else Outcome([c], 1, true)
  {
    if ops in faults {
      AttemptStopsAt([c], ops, faults, 0);
    }
  }

  /** Issuing `a + b` is issuing `a` and then, only if all of `a` was
      accepted, issuing `b` from the next call on. */
  lemma AttemptConcat(a: seq<Command>, b: seq<Command>, ops: nat, faults: set<nat>)
    ensures Attempt(a + b, ops, faults) ==
      var oa := Attempt(a, ops, faults);
      if !oa.ok then oa
      else var ob := Attempt(b, ops + |a|, faults); Outcome(a + ob.issued, |a| + ob.attempted, ob.ok)
  {
    var oa := Attempt(a, ops, faults);
    AttemptClean(a, ops, faults);
    if !oa.ok {
      var k := |oa.issued|;
      AttemptStopsAt(a, ops, faults, k);
      AttemptStopsAt(a + b, ops, faults, k);
      assert (a + b)[..k] == a[..k];
    } else {
      var ob := Attempt(b, ops + |a|, faults);
      AttemptClean(b, ops + |a|, faults);
      AttemptClean(a + b, ops, faults);
      if ob.ok {
        JoinFaultFree(faults, ops, ops + |a|, ops + |a| + |b|);
      } else {
        var j := |ob.issued|;
        JoinFaultFree(faults, ops, ops + |a|, ops + |a| + j);
        AttemptStopsAt(a + b, ops, faults, |a| + j);
        assert (a + b)[..|a| + j] == a + b[..j];
      }
    }
  }

  /** After `p` was issued without a fault from call `ops0` on, issuing `s`
      next leaves the log and the call count of issuing `p + s` at once. */
  lemma IssueAfter(p: seq<Command>, s: seq<Command>, ops0: nat, faults: set<nat>,
                   log0: seq<Command>, log: seq<Command>, ops: nat)
    requires Attempt(p, ops0, faults).ok
    requires log == log0 + p + Attempt(s, ops0 + |p|, faults).issued
    requires ops == ops0 + |p| + Attempt(s, ops0 + |p|, faults).attempted
    ensures var o := Attempt(p + s, ops0, faults);
      log == log0 + o.issued && ops == ops0 + o.attempted && o.ok == Attempt(s, ops0 + |p|, faults).ok
  {
    AttemptConcat(p, s, ops0, faults);
    AppendAssoc(log0, p, Attempt(s, ops0 + |p|, faults).issued);
  }

  /** The display: the commands it has accepted, the number of driver calls
      made so far, and the calls that fail. */
  class Surface {
    var log: seq<Command>
    var ops: nat
    const faults: set<nat>

    constructor (faults: set<nat>)
      ensures log == [] && ops == 0 && this.faults == faults
    {
      log := [];
      ops := 0;
      this.faults := faults;
    }

    /** One driver call: it is accepted unless its number is a fault. */
    method Issue(c: Command) returns (ok: bool)
      modifies this
      ensures ok <==> old(ops) !in faults
      ensures ops == old(ops) + 1
      ensures log == if ok then old(log) + [c] else old(log)
      ensures var o := Attempt([c], old(ops), faults);
        log == old(log) + o.issued && ops == old(ops) + o.attempted && ok == o.ok
    {
      AttemptOne(c, ops, faults);
      ok := ops !in faults;
      if ok {
        log := log + [c];
      }
      ops := ops + 1;
    }
  }
}
