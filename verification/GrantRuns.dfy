/** Modes, grants and revocations over a set of known capabilities, whatever those
    are, and what a run of such operations amounts to. */
module GrantRuns {
  import opened Common

  datatype Mode = Universal | Internal | Hardware

  function ModeTier(m: Mode): nat {
    match m
    case Universal => 1
    case Internal => 2
    case Hardware => 3
  }

  /** Mode, granted and revoked capabilities. */
  datatype Perms<C(==)> = Perms(mode: Mode, granted: set<C>, revoked: set<C>)

  /** An operation; `SetMode(None)` stands for a name that is not a mode. */
  datatype Op<C> = SetMode(mode: Option<Mode>) | Grant(c: C) | Revoke(c: C) | Reset

  /** Operations that raise leave the state alone. */
  function Step<C(==)>(known: set<C>, s: Perms<C>, op: Op<C>): Perms<C> {
    match op
    case SetMode(None) => s
    case SetMode(Some(m)) =>
      if ModeTier(m) < ModeTier(s.mode) then s.(mode := m, granted := {}) else s.(mode := m)
    case Grant(c) => if c in known then s.(revoked := s.revoked - {c}, granted := s.granted + {c}) else s
    case Revoke(c) => s.(granted := s.granted - {c}, revoked := s.revoked + {c})
    case Reset => s.(granted := {}, revoked := {})
  }

  function Run<C(==)>(known: set<C>, mode: Mode, ops: seq<Op<C>>): Perms<C> {
    if ops == [] then Perms(mode, {}, {}) else Step(known, Run(known, mode, ops[..|ops| - 1]), ops[|ops| - 1])
  }

  // ---- what a run amounts to ----

  /** The mode in force before operation i: that of the last valid switch. */
  function ModeBefore<C(==)>(mode: Mode, ops: seq<Op<C>>, i: nat): Mode
    requires i <= |ops|
  {
    if i == 0 then mode
    else if ops[i - 1].SetMode? && ops[i - 1].mode.Some? then ops[i - 1].mode.value
    else ModeBefore(mode, ops, i - 1)
  }

  predicate SwitchesDown<C(==)>(mode: Mode, ops: seq<Op<C>>, i: nat)
    requires i < |ops|
  {
    ops[i].SetMode? && ops[i].mode.Some? && ModeTier(ops[i].mode.value) < ModeTier(ModeBefore(mode, ops, i))
  }

  /** Something switched on and not switched off since, given where each happens. */
  ghost predicate Stands(on: seq<bool>, off: seq<bool>)
    requires |on| == |off|
  {
    exists i :: 0 <= i < |on| && on[i] && forall k :: i < k < |off| ==> !off[k]
  }

  lemma StandsNext(on: seq<bool>, off: seq<bool>, a: bool, b: bool)
    requires |on| == |off|
    ensures Stands(on + [a], off + [b]) <==> a || (Stands(on, off) && !b)
  {
    var on', off', n := on + [a], off + [b], |on|;
    assert on'[n] == a && off'[n] == b;
    if Stands(on, off) && !b {
      var i :| 0 <= i < n && on[i] && forall k :: i < k < n ==> !off[k];
      assert on'[i] && forall k :: i < k < n + 1 ==> !off'[k];
    }
    if !a && Stands(on', off') {
      var i :| 0 <= i < n + 1 && on'[i] && forall k :: i < k < n + 1 ==> !off'[k];
      assert on[i] && forall k :: i < k < n ==> off[k] == off'[k];
    }
  }

  predicate Undoes<C(==)>(known: set<C>, op: Op<C>, c: C) {
    op == Reset || (op == Grant(c) && c in known)
  }

  /** Revoked, and neither granted nor reset since. */
  ghost predicate RevokeStands<C>(known: set<C>, ops: seq<Op<C>>, c: C) {
    Stands(seq(|ops|, i requires 0 <= i < |ops| => ops[i] == Revoke(c)),
           seq(|ops|, i requires 0 <= i < |ops| => Undoes(known, ops[i], c)))
  }

  predicate Withdraws<C(==)>(mode: Mode, ops: seq<Op<C>>, c: C, i: nat)
    requires i < |ops|
  {
    ops[i] == Reset || ops[i] == Revoke(c) || SwitchesDown(mode, ops, i)
  }

  /** Granted, and since then neither revoked nor reset nor switched to a lower mode. */
  ghost predicate GrantStands<C>(known: set<C>, mode: Mode, ops: seq<Op<C>>, c: C) {
    c in known && Stands(seq(|ops|, i requires 0 <= i < |ops| => ops[i] == Grant(c)),
                       seq(|ops|, i requires 0 <= i < |ops| => Withdraws(mode, ops, c, i)))
  }

  lemma ModeBeforePrefix<C>(mode: Mode, ops: seq<Op<C>>, op: Op<C>, i: nat)
    requires i <= |ops|
    ensures ModeBefore(mode, ops + [op], i) == ModeBefore(mode, ops, i)
  {
  }

  lemma RevokeStandsNext<C>(known: set<C>, ops: seq<Op<C>>, op: Op<C>, c: C)
    ensures RevokeStands(known, ops + [op], c)
            <==> op == Revoke(c) || (RevokeStands(known, ops, c) && !Undoes(known, op, c))
  {
    var all := ops + [op];
    var on := seq(|ops|, i requires 0 <= i < |ops| => ops[i] == Revoke(c));
    var off := seq(|ops|, i requires 0 <= i < |ops| => Undoes(known, ops[i], c));
    StandsNext(on, off, op == Revoke(c), Undoes(known, op, c));
    assert seq(|all|, i requires 0 <= i < |all| => all[i] == Revoke(c)) == on + [op == Revoke(c)];
    assert seq(|all|, i requires 0 <= i < |all| => Undoes(known, all[i], c)) == off + [Undoes(known, op, c)];
  }

  lemma GrantStandsNext<C>(known: set<C>, mode: Mode, ops: seq<Op<C>>, op: Op<C>, c: C)
    ensures GrantStands(known, mode, ops + [op], c)
       <==> c in known
            && (op == Grant(c) || (GrantStands(known, mode, ops, c) && !Withdraws(mode, ops + [op], c, |ops|)))
  {
    var all, last := ops + [op], Withdraws(mode, ops + [op], c, |ops|);
    var on := seq(|ops|, i requires 0 <= i < |ops| => ops[i] == Grant(c));
    var off := seq(|ops|, i requires 0 <= i < |ops| => Withdraws(mode, ops, c, i));
    StandsNext(on, off, op == Grant(c), last);
    forall k: nat | k < |ops| ensures Withdraws(mode, all, c, k) == Withdraws(mode, ops, c, k) {
      ModeBeforePrefix(mode, ops, op, k);
    }
    assert seq(|all|, i requires 0 <= i < |all| => all[i] == Grant(c)) == on + [op == Grant(c)];
    assert seq(|all|, i requires 0 <= i < |all| => Withdraws(mode, all, c, i)) == off + [last];
  }

  /** The state after any run, read off the run itself. */
  lemma {:induction false} RunIsTrace<C>(known: set<C>, mode: Mode, ops: seq<Op<C>>, c: C)
    ensures var s := Run(known, mode, ops);
            && s.mode == ModeBefore(mode, ops, |ops|)
            && (c in s.revoked <==> RevokeStands(known, ops, c))
            && (c in s.granted <==> GrantStands(known, mode, ops, c))
            && !(c in s.granted && c in s.revoked)
    decreases |ops|
  {
    if ops != [] {
      var init, op := ops[..|ops| - 1], ops[|ops| - 1];
      assert ops == init + [op];
      RunIsTrace(known, mode, init, c);
      RevokeStandsNext(known, init, op, c);
      GrantStandsNext(known, mode, init, op, c);
      ModeBeforePrefix(mode, init, op, |init|);
    }
  }
}
