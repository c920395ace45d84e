// Replacing one method of a program by code that refines it: no call can tell.

module Programs {
  import opened Wrappers
  import opened Words
  import opened Bytecode
  import opened Simulation

  /** q is p with another body for method id. */
  predicate Replaces(p: Program, q: Program, id: MethodId) {
    && id in p && q.Keys == p.Keys
    && q[id].virtual == p[id].virtual && q[id].clsMem == p[id].clsMem
    && forall k :: k in p && k != id ==> q[k] == p[k]
  }

  ghost predicate ReplacesBy(h: Host, p: Program, q: Program, id: MethodId) {
    Replaces(p, q, id) && RefinesMethod(h, p, p[id].clsMem, p[id].code, q[id].code, 1)
  }

  /** The same calls return the same results in both programs, with the same number of backward
      jumps; only how deep calls nest may differ. */
  ghost predicate CoTerminate(h: Host, p: Program, q: Program) {
    forall id: MethodId, m: Machine, fuel: nat, r: Outcome :: !r.Timeout? ==>
      (Reaches(h, p, id, m, fuel, r) <==> Reaches(h, q, id, m, fuel, r))
  }

  ghost predicate Reaches(h: Host, p: Program, id: MethodId, m: Machine, fuel: nat, r: Outcome) {
    exists depth: nat :: Call(h, p, id, m, fuel, depth) == r
  }

  lemma SameCallee(h: Host, p: Program, q: Program, id: MethodId, call: MethodId, m: Machine)
    requires Replaces(p, q, id) && |m.stack| > 0
    ensures Callee(h, p, call, m) == Callee(h, q, call, m)
  {
  }

  /** Code that runs in p runs in q: the replaced method is no worse. */
  lemma {:induction false} Forward(h: Host, p: Program, q: Program, id: MethodId, code: seq<Instr>, rest: seq<Instr>, m: Machine,
                                   fuel: nat, d: nat, d': nat)
    requires ReplacesBy(h, p, q, id) && d <= d'
    ensures var r := Run(Activation(h, p, code, d), rest, m, fuel);
      !r.Timeout? ==> Run(Activation(h, q, code, d'), rest, m, fuel) == r
    decreases d, fuel, |rest|
  {
    var a, b := Activation(h, p, code, d), Activation(h, q, code, d');
    if rest == [] || Run(a, rest, m, fuel).Timeout? { return; }
    if rest[0].MTHD_CALL? {
      RunCall(a, rest, m, fuel);
      RunCall(b, rest, m, fuel);
      if |m.stack| > 0 { SameCallee(h, p, q, id, rest[0].id, m); }
      if d > 0 {
        ForwardCall(h, p, q, id, rest[0].id, m, fuel, d - 1, d' - 1);
        hide Call, ReplacesBy;
        var r := Call(h, p, rest[0].id, m, fuel, d - 1);
        if r.Done? { Forward(h, p, q, id, code, rest[1..], r.m, r.fuel, d, d'); }
      }
    } else {
      hide ReplacesBy, Advance;
      var move := Advance(h, code, rest, m, fuel);
      if move.Goto? { Forward(h, p, q, id, code, move.rest, move.m, move.fuel, d, d'); }
    }
  }

  lemma {:induction false} ForwardCall(h: Host, p: Program, q: Program, id: MethodId, call: MethodId, m: Machine, fuel: nat,
                                       d: nat, d': nat)
    requires ReplacesBy(h, p, q, id) && d <= d'
    ensures var r := Call(h, p, call, m, fuel, d); !r.Timeout? ==> Call(h, q, call, m, fuel, d') == r
    decreases d, fuel + 1, 0
  {
    if |m.stack| == 0 { return; }
    SameCallee(h, p, q, id, call, m);
    var target := Callee(h, p, call, m);
    if target.None? { return; }
    var t := target.value;
    var e := Enter(h, p[t], m);
    var r := RunBody(h, p, p[t].code, e, fuel, d);
    if r.Timeout? { return; }
    if t == id {
      var s := RunBody(h, p, q[t].code, e, fuel, d);
      assert Visible(s) == Visible(r);
      SameVisible(m, r, s);
    }
    Forward(h, p, q, id, q[t].code, q[t].code, e, fuel, d, d');
  }

  lemma SameVisible(m: Machine, r: Outcome, s: Outcome)
    requires Visible(r) == Visible(s)
    ensures s.Timeout? == r.Timeout? && s.Done? == r.Done? && s.Fell? == r.Fell? && s.Fault? == r.Fault?
    ensures r.Done? ==> s.fuel == r.fuel && Leave(m, s.m) == Leave(m, r.m)
  {
  }

  /** Code that runs in q runs in p, where calls may have to nest twice as deep. */
  lemma {:induction false} Backward(h: Host, p: Program, q: Program, id: MethodId, code: seq<Instr>, rest: seq<Instr>, m: Machine,
                                    fuel: nat, d: nat, d': nat)
    requires ReplacesBy(h, p, q, id) && 2 * d <= d'
    ensures var r := Run(Activation(h, q, code, d), rest, m, fuel);
      !r.Timeout? ==> Run(Activation(h, p, code, d'), rest, m, fuel) == r
    decreases d, fuel, |rest|
  {
    var a, b := Activation(h, q, code, d), Activation(h, p, code, d');
    if rest == [] || Run(a, rest, m, fuel).Timeout? { return; }
    if rest[0].MTHD_CALL? {
      RunCall(a, rest, m, fuel);
      RunCall(b, rest, m, fuel);
      if |m.stack| > 0 { SameCallee(h, p, q, id, rest[0].id, m); }
      if d > 0 {
        BackwardCall(h, p, q, id, rest[0].id, m, fuel, d - 1, d' - 1);
        hide Call, ReplacesBy;
        var r := Call(h, q, rest[0].id, m, fuel, d - 1);
        if r.Done? { Backward(h, p, q, id, code, rest[1..], r.m, r.fuel, d, d'); }
      }
    } else {
      hide ReplacesBy, Advance;
      var move := Advance(h, code, rest, m, fuel);
      if move.Goto? { Backward(h, p, q, id, code, move.rest, move.m, move.fuel, d, d'); }
    }
  }

  lemma {:induction false} BackwardCall(h: Host, p: Program, q: Program, id: MethodId, call: MethodId, m: Machine, fuel: nat,
                                        d: nat, d': nat)
    requires ReplacesBy(h, p, q, id) && 2 * d + 1 <= d'
    ensures var r := Call(h, q, call, m, fuel, d); !r.Timeout? ==> Call(h, p, call, m, fuel, d') == r
    decreases d, fuel + 1, 0
  {
    if |m.stack| == 0 { return; }
    SameCallee(h, p, q, id, call, m);
    var target := Callee(h, q, call, m);
    if target.None? { return; }
    var t := target.value;
    var e := Enter(h, q[t], m);
    Backward(h, p, q, id, q[t].code, q[t].code, e, fuel, d, if t == id then 2 * d else d');
    if t == id {
      var s := RunBody(h, p, q[t].code, e, fuel, 2 * d);
      if !s.Timeout? {
        var r := RunBody(h, p, p[t].code, e, fuel, d');
        assert Visible(s) == Visible(r);
        SameVisible(m, r, s);
      }
    }
  }

  /** Replacing a method by a refinement leaves every call of the program as it was. */
  lemma ReplacedCoTerminate(h: Host, p: Program, q: Program, id: MethodId)
    requires ReplacesBy(h, p, q, id)
    ensures CoTerminate(h, p, q)
  {
    forall call: MethodId, m: Machine, fuel: nat, r: Outcome | !r.Timeout?
      ensures Reaches(h, p, call, m, fuel, r) <==> Reaches(h, q, call, m, fuel, r)
    {
      if Reaches(h, p, call, m, fuel, r) {
        var d: nat :| Call(h, p, call, m, fuel, d) == r;
        ForwardCall(h, p, q, id, call, m, fuel, d, d);
      }
      if Reaches(h, q, call, m, fuel, r) {
        var d: nat :| Call(h, q, call, m, fuel, d) == r;
        BackwardCall(h, p, q, id, call, m, fuel, d, 2 * d + 1);
      }
    }
  }

  lemma CoTerminateTransitive(h: Host, p: Program, q: Program, r: Program)
    requires CoTerminate(h, p, q) && CoTerminate(h, q, r)
    ensures CoTerminate(h, p, r)
  {
  }
}
