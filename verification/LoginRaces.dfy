/**
 Login protection of one account, one cache operation at a time: the lock check reads, judges and
 may delete an old lock, and a failure counts, may lock and may forget the count, with other
 threads in between. A potential bounds how many checks can still fail.
 */
module LoginRaces {
  import opened Common
  import opened MemoryCache
  import opened Streaks
  import opened LoginGuard

  /** What an attempt under way has to do next. */
  datatype Stage =
    | Seen(until: real)   // it has read a lock, and must compare it with the clock
    | Stale               // that lock was over, and must be deleted
    | Checked             // it may go on to the password check
    | Over                // its failure reached the limit, and it must set the lock
    | Owing               // and then forget the count

  datatype Move =
    | Look(n: nat, now: real)
    | Judge(n: nat, now: real)
    | Forget(n: nat, now: real)
    | Check(n: nat, correct: bool, now: real)
    | Lock(n: nat, now: real)
    | Clear(n: nat, now: real)

  // ------------------------------------------------------------------ one account on its own

  datatype Race = Race(fails: seq<real>, until: Option<real>, stages: map<nat, Stage>)

  const CALM := Race([], None, map[])

  /** Whether the thread is where this move takes it on. */
  predicate Ready(stages: map<nat, Stage>, m: Move) {
    match m
    case Look(n, _) => n !in stages
    case Judge(n, _) => n in stages && stages[n].Seen?
    case Forget(n, _) => n in stages && stages[n].Stale?
    case Check(n, _, _) => n in stages && stages[n].Checked?
    case Lock(n, _) => n in stages && stages[n].Over?
    case Clear(n, _) => n in stages && stages[n].Owing?
  }

  /** Where the move leaves its thread, if it is still under way. */
  function Onward(r: Race, l: Limits, m: Move): Option<Stage>
    requires Ready(r.stages, m)
  {
    match m
    case Look(_, now) =>
      if r.until.Some? && now <= r.until.value then Some(Seen(r.until.value)) else Some(Checked)
    case Judge(n, now) => if now < r.stages[n].until then None else Some(Stale)
    case Forget(_, _) => Some(Checked)
    case Check(_, correct, now) =>
      if !correct && Streak(r.fails + [now], l.lock) >= l.maxFails then Some(Over) else None
    case Lock(_, _) => Some(Owing)
    case Clear(_, _) => None
  }

  function Placed(stages: map<nat, Stage>, n: nat, to: Option<Stage>): map<nat, Stage> {
    if to.Some? then stages[n := to.value] else stages - {n}
  }

  function Moved(r: Race, l: Limits, m: Move): (Race, seq<Entry>) {
    if !Ready(r.stages, m) then (r, [])
    else
      var stages := Placed(r.stages, m.n, Onward(r, l, m));
      match m
      case Look(_, _) => (r.(stages := stages), [])
      case Judge(_, now) => (r.(stages := stages), if m.n in stages then [] else [Entry(Locked, now)])
      case Forget(_, _) => (r.(stages := stages, until := None), [])
      case Check(_, correct, now) =>
        if correct then (r.(stages := stages, fails := []), [Entry(Welcome, now)])
        else (r.(stages := stages, fails := r.fails + [now]), [Entry(Invalid, now)])
      case Lock(_, now) => (r.(stages := stages, until := Some(now + l.lock)), [])
      case Clear(_, _) => (r.(stages := stages, fails := []), [])
  }

  function RaceLog(r: Race, l: Limits, moves: seq<Move>): seq<Entry>
    decreases |moves|
  {
    if moves == [] then [] else Moved(r, l, moves[0]).1 + RaceLog(Moved(r, l, moves[0]).0, l, moves[1..])
  }

  ghost predicate NeverMore(r: Race, l: Limits, moves: seq<Move>, k: nat)
    decreases |moves|
  {
    && |r.stages| <= k
    && (moves != [] ==> NeverMore(Moved(r, l, moves[0]).0, l, moves[1..], k))
  }

  ghost predicate MovesInOrder(moves: seq<Move>, from: real)
    decreases |moves|
  {
    moves != [] ==> from <= moves[0].now && MovesInOrder(moves[1..], moves[0].now)
  }

  // ------------------------------------------------------------------ who is where

  /** What a thread can still do to an interval at whose end `edge` lies. */
  datatype Kind = Dangerous | Going | Closing | Wiping | Harmless

  /** A lock that lasts to the edge makes those who have read it harmless. */
  function KindOf(stage: Stage, edge: real): Kind {
    match stage
    case Seen(until) => if until < edge then Dangerous else Harmless
    case Stale => Dangerous
    case Checked => Going
    case Over => Closing
    case Owing => Wiping
  }

  function Those(stages: map<nat, Stage>, edge: real, kind: Kind): set<nat> {
    set n | n in stages && KindOf(stages[n], edge) == kind
  }

  function CountOf(stages: map<nat, Stage>, edge: real, kind: Kind): nat {
    |Those(stages, edge, kind)|
  }

  function One(b: bool): nat {
    if b then 1 else 0
  }

  lemma ThosePlaced(stages: map<nat, Stage>, edge: real, kind: Kind, n: nat, to: Option<Stage>)
    ensures Those(Placed(stages, n, to), edge, kind)
         == (Those(stages, edge, kind) - {n}) + if to.Some? && KindOf(to.value, edge) == kind then {n} else {}
    ensures n in Those(stages, edge, kind) <==> n in stages && KindOf(stages[n], edge) == kind
  {
  }

  lemma CountPlaced(stages: map<nat, Stage>, edge: real, kind: Kind, n: nat, to: Option<Stage>)
    ensures CountOf(Placed(stages, n, to), edge, kind)
         == CountOf(stages, edge, kind) - One(n in stages && KindOf(stages[n], edge) == kind)
            + One(to.Some? && KindOf(to.value, edge) == kind)
  {
    ThosePlaced(stages, edge, kind, n, to);
    Replaced(Those(stages, edge, kind), n, to.Some? && KindOf(to.value, edge) == kind);
  }

  lemma Replaced(before: set<nat>, n: nat, back: bool)
    ensures |(before - {n}) + if back then {n} else {}| == |before| - One(n in before) + One(back)
  {
    if back {
      assert n !in before - {n};
    } else {
      assert (before - {n}) + {} == before - {n};
    }
  }

  lemma CountsFit(stages: map<nat, Stage>, edge: real)
    ensures CountOf(stages, edge, Dangerous) + CountOf(stages, edge, Going)
            + CountOf(stages, edge, Closing) + CountOf(stages, edge, Wiping) <= |stages|
  {
    var d, p := Those(stages, edge, Dangerous), Those(stages, edge, Going);
    var o, w := Those(stages, edge, Closing), Those(stages, edge, Wiping);
    assert d !! p && (d + p) !! o && (d + p + o) !! w;
    assert |d + p + o + w| == |d| + |p| + |o| + |w|;
    assert d + p + o + w <= stages.Keys;
    Fewer(d + p + o + w, stages.Keys);
  }

  lemma Fewer(a: set<nat>, b: set<nat>)
    requires a <= b
    ensures |a| <= |b|
  {
    assert b == a + (b - a);
  }

  // ------------------------------------------------------------------ what may still fail

  /** The lock is none, from before the interval, or lasts to its end. */
  datatype Phase = Open | Old | Shut

  datatype Tally = Tally(phase: Phase, c: nat, d: nat, p: nat, o: nat, w: nat) {
    predicate Fits(k: nat) {
      d + p + o + w <= k && (phase.Shut? ==> d < k)
    }
  }

  /** `n` times `m`, in steps. */
  function Of(n: nat, m: nat): nat {
    if n == 0 then 0 else m + Of(n - 1, m)
  }

  lemma {:induction false} OfSum(a: nat, b: nat, m: nat)
    ensures Of(a + b, m) == Of(a, m) + Of(b, m)
  {
    if a > 0 {
      OfSum(a - 1, b, m);
    }
  }

  lemma {:induction false} OfIsTimes(n: nat, m: nat)
    ensures Of(n, m) == n * m
  {
    if n > 0 {
      OfIsTimes(n - 1, m);
    }
  }

  /** What one more dangerous thread is worth when `j` are left behind it. */
  function Gain(m: nat, k: nat, j: nat): nat
    requires j < k
  {
    Of(k - j - 1, m) + (k - j)
  }

  function Gains(m: nat, k: nat, n: nat): nat
    requires n <= k
  {
    if n == 0 then 0 else Gains(m, k, n - 1) + Gain(m, k, n - 1)
  }

  function Spare(m: nat, c: nat): nat {
    if c < m then m - c else 0
  }

  /** What is left of the count, unless nobody can use it before it is forgotten. */
  function Unused(m: nat, k: nat, t: Tally): nat {
    if t.o + t.w == k then 0 else Spare(m, t.c)
  }

  /** How many checks can still fail, `m` being one less than the limit. */
  function Potential(m: nat, k: nat, t: Tally): nat
    requires t.Fits(k)
  {
    match t.phase
    case Old => Unused(m, k, t) + Of(t.w, m) + Gains(m, k, k - t.o)
    case Open => Unused(m, k, t) + Of(t.w, m) + (k - t.d - t.o) + Gains(m, k, t.d)
    case Shut =>
      if t.d == 0 then t.p
      else t.p + Spare(m, t.c) + Of(t.w + t.o + t.p, m) + (k - t.d + 1) + Gains(m, k, t.d - 1)
  }

  lemma {:induction false} GainsGrow(m: nat, k: nat, i: nat, j: nat)
    requires i <= j <= k
    ensures Gains(m, k, j) >= Gains(m, k, i) + (j - i)
    decreases j
  {
    if i < j {
      GainsGrow(m, k, i, j - 1);
    }
  }

  /** A failed check that leaves the count below the limit. */
  lemma FailsBelow(m: nat, k: nat, t: Tally)
    requires t.Fits(k) && t.p > 0 && t.c < m
    ensures Potential(m, k, t.(p := t.p - 1, c := t.c + 1)) + 1 <= Potential(m, k, t)
  {
    OfSum(1, t.w + t.o + t.p - 1, m);
  }

  /** A failed check that reaches it. */
  lemma FailsOver(m: nat, k: nat, t: Tally)
    requires t.Fits(k) && t.p > 0
    ensures Potential(m, k, t.(p := t.p - 1, o := t.o + 1, c := t.c + 1)) + 1 <= Potential(m, k, t)
  {
    if t.phase.Old? {
      GainsGrow(m, k, k - t.o - 1, k - t.o);
    }
  }

  lemma ShutIsCheaper(m: nat, k: nat, t: Tally)
    requires t.Fits(k) && t.o > 0 && t.d > 0 && !t.phase.Shut?
    ensures t.p + Of(t.w + t.o + t.p, m) + (k - t.d + 1) + Gains(m, k, t.d - 1)
         <= Of(t.w, m) + (if t.phase.Open? then (k - t.d - t.o) + Gains(m, k, t.d) else Gains(m, k, k - t.o))
  {
    OfSum(t.w, t.o + t.p, m);
    OfSum(t.o + t.p, k - t.d - t.o - t.p, m);
    assert Gains(m, k, t.d) == Gains(m, k, t.d - 1) + Gain(m, k, t.d - 1);
    if t.phase.Old? {
      GainsGrow(m, k, t.d, k - t.o);
    }
  }

  lemma Locks(m: nat, k: nat, t: Tally)
    requires t.Fits(k) && t.o > 0
    ensures var t' := t.(phase := Shut, o := t.o - 1, w := t.w + 1); t'.Fits(k) && Potential(m, k, t') <= Potential(m, k, t)
  {
    if t.d > 0 && !t.phase.Shut? {
      ShutIsCheaper(m, k, t);
    } else if t.phase.Old? {
      GainsGrow(m, k, 0, k - t.o);
    }
  }

  lemma Wipes(m: nat, k: nat, t: Tally)
    requires t.Fits(k) && t.w > 0
    ensures Potential(m, k, t.(c := 0, w := t.w - 1)) <= Potential(m, k, t)
  {
    OfSum(1, t.w - 1, m);
    OfSum(1, t.w + t.o + t.p - 1, m);
  }

  /** A lock is deleted by one that had read an older one. */
  lemma Reopens(m: nat, k: nat, t: Tally)
    requires t.Fits(k) && t.d > 0
    ensures var t' := t.(phase := Open, d := t.d - 1, p := t.p + 1); t'.Fits(k) && Potential(m, k, t') <= Potential(m, k, t)
  {
    match t.phase
    case Open => GainsGrow(m, k, t.d - 1, t.d);
    case Old => GainsGrow(m, k, t.d - 1, k - t.o);
    case Shut => OfSum(t.w, t.o + t.p, m);
  }

  /** A thread that read a lock still in force is refused. */
  lemma Refused(m: nat, k: nat, t: Tally)
    requires t.Fits(k) && t.d > 0
    ensures Potential(m, k, t.(d := t.d - 1)) <= Potential(m, k, t)
  {
    if t.phase.Open? {
      GainsGrow(m, k, t.d - 1, t.d);
    } else if t.phase.Shut? && t.d > 1 {
      GainsGrow(m, k, t.d - 2, t.d - 1);
    }
  }

  lemma Looks(m: nat, k: nat, t: Tally, t': Tally)
    requires t.Fits(k) && t'.Fits(k)
    requires t' == t || (t.phase.Old? && (t' == t.(d := t.d + 1) || t' == t.(p := t.p + 1)))
             || (t.phase.Open? && t' == t.(p := t.p + 1))
    ensures Potential(m, k, t') == Potential(m, k, t)
  {
  }

  // ------------------------------------------------------------------ one move

  function PhaseOf(until: Option<real>, edge: real): Phase {
    if until.None? then Open else if until.value < edge then Old else Shut
  }

  function TallyOf(r: Race, l: Limits, lo: real): Tally {
    var edge := lo + l.lock;
    Tally(PhaseOf(r.until, edge), Since(r.fails, lo), CountOf(r.stages, edge, Dangerous),
          CountOf(r.stages, edge, Going), CountOf(r.stages, edge, Closing), CountOf(r.stages, edge, Wiping))
  }

  ghost predicate Sound(r: Race, from: real) {
    Ascending(r.fails) && forall t :: t in r.fails ==> t <= from
  }

  /** A thread moves on, and the others stay where they are. */
  lemma TallyPlaced(r: Race, l: Limits, lo: real, n: nat, to: Option<Stage>, t: Race)
    requires t.stages == Placed(r.stages, n, to) && (to.Some? || n in r.stages)
    ensures var edge := lo + l.lock;
            var before, after := TallyOf(r, l, lo), TallyOf(t, l, lo);
            && after.d == before.d - One(n in r.stages && KindOf(r.stages[n], edge) == Dangerous)
                          + One(to.Some? && KindOf(to.value, edge) == Dangerous)
            && after.p == before.p - One(n in r.stages && KindOf(r.stages[n], edge) == Going)
                          + One(to.Some? && KindOf(to.value, edge) == Going)
            && after.o == before.o - One(n in r.stages && KindOf(r.stages[n], edge) == Closing)
                          + One(to.Some? && KindOf(to.value, edge) == Closing)
            && after.w == before.w - One(n in r.stages && KindOf(r.stages[n], edge) == Wiping)
                          + One(to.Some? && KindOf(to.value, edge) == Wiping)
  {
    var edge := lo + l.lock;
    CountPlaced(r.stages, edge, Dangerous, n, to);
    CountPlaced(r.stages, edge, Going, n, to);
    CountPlaced(r.stages, edge, Closing, n, to);
    CountPlaced(r.stages, edge, Wiping, n, to);
  }

  /** What a move in the interval may assume and must leave. */
  ghost predicate Pending(r: Race, l: Limits, lo: real, k: nat) {
    l.Valid() && |r.stages| <= k && TallyOf(r, l, lo).Fits(k)
  }

  function Left(r: Race, l: Limits, lo: real, k: nat): nat
    requires Pending(r, l, lo, k)
  {
    Potential(l.maxFails - 1, k, TallyOf(r, l, lo))
  }

  lemma LookTally(r: Race, l: Limits, lo: real, n: nat, now: real)
    requires lo <= now < lo + l.lock && n !in r.stages
    ensures var t, t' := TallyOf(r, l, lo), TallyOf(Moved(r, l, Look(n, now)).0, l, lo);
            if r.until.None? || now > r.until.value then t' == t.(p := t.p + 1)
            else if t.phase.Old? then t' == t.(d := t.d + 1) else t' == t
    ensures now > lo && r.until.Some? && now > r.until.value ==> TallyOf(r, l, lo).phase.Old?
  {
    TallyPlaced(r, l, lo, n, Onward(r, l, Look(n, now)), Moved(r, l, Look(n, now)).0);
  }

  lemma LookSpends(r: Race, l: Limits, lo: real, k: nat, n: nat, now: real)
    requires Pending(r, l, lo, k) && lo <= now < lo + l.lock && n !in r.stages
    requires |Moved(r, l, Look(n, now)).0.stages| <= k
    ensures var t := Moved(r, l, Look(n, now)).0; Pending(t, l, lo, k) && Left(t, l, lo, k) <= Left(r, l, lo, k)
  {
    var t := Moved(r, l, Look(n, now)).0;
    LookTally(r, l, lo, n, now);
    LookFits(t, l, lo, k, TallyOf(r, l, lo), TallyOf(t, l, lo));
  }

  lemma LookFits(t: Race, l: Limits, lo: real, k: nat, before: Tally, after: Tally)
    requires l.Valid() && |t.stages| <= k && before.Fits(k) && after == TallyOf(t, l, lo)
    requires after == before || (before.phase.Old? && (after == before.(d := before.d + 1) || after == before.(p := before.p + 1)))
             || (before.phase.Open? && after == before.(p := before.p + 1))
    ensures Pending(t, l, lo, k) && Left(t, l, lo, k) == Potential(l.maxFails - 1, k, before)
  {
    CountsFit(t.stages, lo + l.lock);
    Looks(l.maxFails - 1, k, before, after);
  }

  lemma JudgeTally(r: Race, l: Limits, lo: real, n: nat, now: real)
    requires lo <= now < lo + l.lock && Ready(r.stages, Judge(n, now))
    ensures var t, t' := TallyOf(r, l, lo), TallyOf(Moved(r, l, Judge(n, now)).0, l, lo);
            if now < r.stages[n].until < lo + l.lock then t.d > 0 && t' == t.(d := t.d - 1) else t' == t
  {
    TallyPlaced(r, l, lo, n, Onward(r, l, Judge(n, now)), Moved(r, l, Judge(n, now)).0);
  }

  lemma JudgeSpends(r: Race, l: Limits, lo: real, k: nat, n: nat, now: real)
    requires Pending(r, l, lo, k) && lo <= now < lo + l.lock && Ready(r.stages, Judge(n, now))
    requires |Moved(r, l, Judge(n, now)).0.stages| <= k
    ensures var t := Moved(r, l, Judge(n, now)).0; Pending(t, l, lo, k) && Left(t, l, lo, k) <= Left(r, l, lo, k)
  {
    JudgeTally(r, l, lo, n, now);
    JudgeFits(Moved(r, l, Judge(n, now)).0, l, lo, k, TallyOf(r, l, lo));
  }

  lemma JudgeFits(t: Race, l: Limits, lo: real, k: nat, before: Tally)
    requires l.Valid() && |t.stages| <= k && before.Fits(k)
    requires TallyOf(t, l, lo) == before || (before.d > 0 && TallyOf(t, l, lo) == before.(d := before.d - 1))
    ensures Pending(t, l, lo, k) && Left(t, l, lo, k) <= Potential(l.maxFails - 1, k, before)
  {
    if before.d > 0 {
      Refused(l.maxFails - 1, k, before);
    }
  }

  lemma ForgetSpends(r: Race, l: Limits, lo: real, k: nat, n: nat, now: real)
    requires Pending(r, l, lo, k) && Ready(r.stages, Forget(n, now))
    requires |Moved(r, l, Forget(n, now)).0.stages| <= k
    ensures var t := Moved(r, l, Forget(n, now)).0; Pending(t, l, lo, k) && Left(t, l, lo, k) <= Left(r, l, lo, k)
  {
    var t, before := Moved(r, l, Forget(n, now)).0, TallyOf(r, l, lo);
    TallyPlaced(r, l, lo, n, Some(Checked), t);
    assert TallyOf(t, l, lo) == before.(phase := Open, d := before.d - 1, p := before.p + 1);
    Reopens(l.maxFails - 1, k, before);
  }

  lemma LockSpends(r: Race, l: Limits, lo: real, k: nat, n: nat, now: real)
    requires Pending(r, l, lo, k) && lo <= now && Ready(r.stages, Lock(n, now))
    requires |Moved(r, l, Lock(n, now)).0.stages| <= k
    ensures var t := Moved(r, l, Lock(n, now)).0; Pending(t, l, lo, k) && Left(t, l, lo, k) <= Left(r, l, lo, k)
  {
    var t, before := Moved(r, l, Lock(n, now)).0, TallyOf(r, l, lo);
    TallyPlaced(r, l, lo, n, Some(Owing), t);
    assert TallyOf(t, l, lo) == before.(phase := Shut, o := before.o - 1, w := before.w + 1);
    Locks(l.maxFails - 1, k, before);
  }

  lemma ClearSpends(r: Race, l: Limits, lo: real, k: nat, n: nat, now: real)
    requires Pending(r, l, lo, k) && Ready(r.stages, Clear(n, now))
    requires |Moved(r, l, Clear(n, now)).0.stages| <= k
    ensures var t := Moved(r, l, Clear(n, now)).0; Pending(t, l, lo, k) && Left(t, l, lo, k) <= Left(r, l, lo, k)
  {
    var t, before := Moved(r, l, Clear(n, now)).0, TallyOf(r, l, lo);
    TallyPlaced(r, l, lo, n, None, t);
    ClearFits(t, l, lo, k, before);
  }

  lemma ClearFits(t: Race, l: Limits, lo: real, k: nat, before: Tally)
    requires l.Valid() && |t.stages| <= k && before.Fits(k) && before.w > 0
    requires TallyOf(t, l, lo) == before.(c := 0, w := before.w - 1)
    ensures Pending(t, l, lo, k) && Left(t, l, lo, k) <= Potential(l.maxFails - 1, k, before)
  {
    Wipes(l.maxFails - 1, k, before);
  }

  predicate Reaches(r: Race, l: Limits, now: real) {
    Streak(r.fails + [now], l.lock) >= l.maxFails
  }

  lemma CheckTally(r: Race, l: Limits, lo: real, n: nat, now: real)
    requires lo <= now && Ready(r.stages, Check(n, false, now))
    ensures var t, t' := TallyOf(r, l, lo), TallyOf(Moved(r, l, Check(n, false, now)).0, l, lo);
            t.p > 0 && t' == if Reaches(r, l, now) then t.(p := t.p - 1, o := t.o + 1, c := t.c + 1)
                             else t.(p := t.p - 1, c := t.c + 1)
  {
    TallyPlaced(r, l, lo, n, Onward(r, l, Check(n, false, now)), Moved(r, l, Check(n, false, now)).0);
    SinceAppend(r.fails, now, lo);
  }

  lemma StillBelow(r: Race, l: Limits, lo: real, from: real, now: real)
    requires Sound(r, from) && from <= now && lo <= now < lo + l.lock && !Reaches(r, l, now)
    ensures Since(r.fails, lo) + 1 < l.maxFails
  {
    FailsGrow(r.fails, now, from);
    SinceAppend(r.fails, now, lo);
    StreakCoversWindow(r.fails + [now], l.lock, lo);
  }

  lemma CheckSpends(r: Race, l: Limits, lo: real, k: nat, n: nat, from: real, now: real)
    requires Pending(r, l, lo, k) && Sound(r, from) && from <= now && lo <= now < lo + l.lock
    requires Ready(r.stages, Check(n, false, now)) && |Moved(r, l, Check(n, false, now)).0.stages| <= k
    ensures var t := Moved(r, l, Check(n, false, now)).0; Pending(t, l, lo, k) && Left(t, l, lo, k) + 1 <= Left(r, l, lo, k)
  {
    var over := CheckSteps(r, l, lo, n, from, now);
    CheckFits(Moved(r, l, Check(n, false, now)).0, l, lo, k, TallyOf(r, l, lo), over);
  }

  lemma CheckSteps(r: Race, l: Limits, lo: real, n: nat, from: real, now: real) returns (over: bool)
    requires Sound(r, from) && from <= now && lo <= now < lo + l.lock && Ready(r.stages, Check(n, false, now))
    ensures var t, t' := TallyOf(r, l, lo), TallyOf(Moved(r, l, Check(n, false, now)).0, l, lo);
            && t.p > 0 && (!over ==> t.c + 1 < l.maxFails)
            && t' == if over then t.(p := t.p - 1, o := t.o + 1, c := t.c + 1) else t.(p := t.p - 1, c := t.c + 1)
  {
    over := Reaches(r, l, now);
    CheckTally(r, l, lo, n, now);
    if !over {
      StillBelow(r, l, lo, from, now);
    }
  }

  lemma CheckFits(t: Race, l: Limits, lo: real, k: nat, before: Tally, over: bool)
    requires l.Valid() && |t.stages| <= k && before.Fits(k) && before.p > 0
    requires TallyOf(t, l, lo) == if over then before.(p := before.p - 1, o := before.o + 1, c := before.c + 1)
                                  else before.(p := before.p - 1, c := before.c + 1)
    requires !over ==> before.c + 1 < l.maxFails
    ensures Pending(t, l, lo, k) && Left(t, l, lo, k) + 1 <= Potential(l.maxFails - 1, k, before)
  {
    if over {
      FailsOver(l.maxFails - 1, k, before);
    } else {
      FailsBelow(l.maxFails - 1, k, before);
    }
  }

  /** A move that is no success uses up what may still fail by what it makes fail. */
  lemma MoveSpends(r: Race, l: Limits, lo: real, k: nat, m: Move, from: real)
    requires Pending(r, l, lo, k) && Sound(r, from) && from <= m.now && lo <= m.now < lo + l.lock
    requires |Moved(r, l, m).0.stages| <= k && !(Ready(r.stages, m) && m.Check? && m.correct)
    ensures var t := Moved(r, l, m).0;
            Pending(t, l, lo, k) && Left(t, l, lo, k) + One(Ready(r.stages, m) && m.Check?) <= Left(r, l, lo, k)
  {
    if Ready(r.stages, m) {
      match m
      case Look(n, now) => LookSpends(r, l, lo, k, n, now);
      case Judge(n, now) => JudgeSpends(r, l, lo, k, n, now);
      case Forget(n, now) => ForgetSpends(r, l, lo, k, n, now);
      case Check(n, _, now) => CheckSpends(r, l, lo, k, n, from, now);
      case Lock(n, now) => LockSpends(r, l, lo, k, n, now);
      case Clear(n, now) => ClearSpends(r, l, lo, k, n, now);
    }
  }

  lemma MoveSound(r: Race, l: Limits, m: Move, from: real)
    requires Sound(r, from) && from <= m.now
    ensures Sound(Moved(r, l, m).0, m.now)
  {
    FailsGrow(r.fails, m.now, from);
  }

  // ------------------------------------------------------------------ whole runs of one account

  lemma {:induction false} PastIt(r: Race, l: Limits, moves: seq<Move>, lo: real, from: real)
    requires from >= lo + l.lock && MovesInOrder(moves, from)
    ensures FailedIn(RaceLog(r, l, moves), l, lo) == 0
    decreases |moves|
  {
    if moves != [] {
      var (t, entries) := Moved(r, l, moves[0]);
      PastIt(t, l, moves[1..], lo, moves[0].now);
      FailedStep(entries, RaceLog(t, l, moves[1..]), l, lo);
    }
  }

  ghost predicate Running(r: Race, l: Limits, moves: seq<Move>, lo: real, from: real, k: nat) {
    && l.Valid() && Sound(r, from) && MovesInOrder(moves, from) && NeverMore(r, l, moves, k)
    && NoWelcomeIn(RaceLog(r, l, moves), l, lo)
  }

  lemma StaysRunning(r: Race, l: Limits, moves: seq<Move>, lo: real, from: real, k: nat)
    requires Running(r, l, moves, lo, from, k) && moves != []
    ensures Running(Moved(r, l, moves[0]).0, l, moves[1..], lo, moves[0].now, k)
    ensures |Moved(r, l, moves[0]).0.stages| <= k
    ensures lo <= moves[0].now < lo + l.lock ==>
              !(Ready(r.stages, moves[0]) && moves[0].Check? && moves[0].correct)
  {
    var (t, entries) := Moved(r, l, moves[0]);
    MoveSound(r, l, moves[0], from);
    FailedStep(entries, RaceLog(t, l, moves[1..]), l, lo);
  }

  /** From the first move in the interval on, no more checks fail than the potential says. */
  lemma {:induction false} PotentialBounds(r: Race, l: Limits, moves: seq<Move>, lo: real, from: real, k: nat)
    requires Running(r, l, moves, lo, from, k) && Pending(r, l, lo, k)
    requires moves != [] ==> lo <= moves[0].now
    ensures FailedIn(RaceLog(r, l, moves), l, lo) <= Left(r, l, lo, k)
    decreases |moves|
  {
    if moves != [] {
      var m := moves[0];
      var (t, entries) := Moved(r, l, m);
      FailedStep(entries, RaceLog(t, l, moves[1..]), l, lo);
      StaysRunning(r, l, moves, lo, from, k);
      if m.now < lo + l.lock {
        MoveSpends(r, l, lo, k, m, from);
        PotentialBounds(t, l, moves[1..], lo, m.now, k);
      } else {
        PastIt(t, l, moves[1..], lo, m.now);
      }
    }
  }

  function Triangle(k: nat): nat {
    if k == 0 then 0 else k + Triangle(k - 1)
  }

  function Weights(m: nat, k: nat): nat {
    if k == 0 then 0 else Weights(m, k - 1) + Of(k - 1, m) + k
  }

  lemma {:induction false} GainsAreWeights(m: nat, k: nat, n: nat)
    requires n <= k
    ensures Gains(m, k, n) + Weights(m, k - n) == Weights(m, k)
  {
    if n > 0 {
      GainsAreWeights(m, k, n - 1);
    }
  }

  lemma {:induction false} OfMore(n: nat, m: nat)
    ensures Of(n, m + 1) == Of(n, m) + n
  {
    if n > 0 {
      OfMore(n - 1, m);
    }
  }

  lemma {:induction false} WeightsTriangle(m: nat, k: nat)
    ensures Weights(m, k) + Of(k, m) == Of(Triangle(k), m + 1)
  {
    if k > 0 {
      WeightsTriangle(m, k - 1);
      OfMore(k, m);
      OfSum(k, Triangle(k - 1), m + 1);
    }
  }

  lemma Gathered(m: nat, k: nat, w: nat, gains: nat)
    requires w <= k && gains <= Gains(m, k, k)
    ensures Of(w, m) + gains <= Of(Triangle(k), m + 1)
  {
    GainsAreWeights(m, k, k);
    WeightsTriangle(m, k);
    OfSum(w, k - w, m);
  }

  /** Whatever an interval begins with, that is as much as can fail in it. */
  lemma PotentialAtMost(m: nat, k: nat, t: Tally)
    requires t.Fits(k) && !t.phase.Shut?
    ensures Potential(m, k, t) <= Of(Triangle(k), m + 1)
  {
    if t.phase.Open? {
      GainsGrow(m, k, t.d, k - t.o);
    }
    GainsGrow(m, k, k - t.o, k);
    if t.o + t.w == k {
      Gathered(m, k, t.w, Gains(m, k, k));
    } else {
      OfSum(1, t.w, m);
      Gathered(m, k, t.w + 1, Gains(m, k, k));
    }
  }

  /** Nothing that happened in the interval is in the state. */
  ghost predicate Earlier(r: Race, l: Limits, lo: real) {
    (forall t :: t in r.fails ==> t < lo) && (r.until.Some? ==> r.until.value < lo + l.lock)
  }

  lemma StaysEarlier(r: Race, l: Limits, m: Move, lo: real)
    requires Earlier(r, l, lo) && m.now < lo
    ensures Earlier(Moved(r, l, m).0, l, lo)
  {
  }

  lemma {:induction false} RaceBound(r: Race, l: Limits, moves: seq<Move>, lo: real, from: real, k: nat)
    requires Running(r, l, moves, lo, from, k) && Earlier(r, l, lo)
    ensures FailedIn(RaceLog(r, l, moves), l, lo) <= l.maxFails * Triangle(k)
    decreases |moves|
  {
    if moves != [] && moves[0].now < lo {
      var (t, entries) := Moved(r, l, moves[0]);
      FailedStep(entries, RaceLog(t, l, moves[1..]), l, lo);
      StaysRunning(r, l, moves, lo, from, k);
      StaysEarlier(r, l, moves[0], lo);
      RaceBound(t, l, moves[1..], lo, moves[0].now, k);
    } else {
      BoundFromHere(r, l, moves, lo, from, k);
    }
  }

  lemma BoundFromHere(r: Race, l: Limits, moves: seq<Move>, lo: real, from: real, k: nat)
    requires Running(r, l, moves, lo, from, k) && Earlier(r, l, lo) && (moves != [] ==> lo <= moves[0].now)
    ensures FailedIn(RaceLog(r, l, moves), l, lo) <= l.maxFails * Triangle(k)
  {
    NothingFailedYet(r, l, lo, k);
    PotentialBounds(r, l, moves, lo, from, k);
  }

  lemma NothingFailedYet(r: Race, l: Limits, lo: real, k: nat)
    requires l.Valid() && |r.stages| <= k && Earlier(r, l, lo)
    ensures Pending(r, l, lo, k) && Left(r, l, lo, k) <= l.maxFails * Triangle(k)
  {
    CountsFit(r.stages, lo + l.lock);
    PotentialAtMost(l.maxFails - 1, k, TallyOf(r, l, lo));
    AtMostTimes(Left(r, l, lo, k), Triangle(k), l.maxFails);
  }

  lemma AtMostTimes(left: nat, n: nat, m: nat)
    requires left <= Of(n, m)
    ensures left <= m * n
  {
    OfIsTimes(n, m);
  }

  // ------------------------------------------------------------------ a stale deletion

  /** Reads the lock, which another attempt has set, before it runs out, and deletes the next one behind it. */
  ghost predicate StaleDeletion(l: Limits, moves: seq<Move>) {
    var late := l.lock + 1.0;
    moves == [Look(0, 0.0), Check(0, false, 0.0), Lock(0, 0.0), Clear(0, 0.0),
              Look(1, 0.0), Judge(1, l.lock),
              Look(0, late), Check(0, false, late), Lock(0, late), Clear(0, late),
              Forget(1, late), Check(1, false, late), Look(0, late), Check(0, false, late)]
  }

  lemma Onto(r: Race, l: Limits, moves: seq<Move>, i: nat, t: Race, entries: seq<Entry>, log: seq<Entry>)
    requires i < |moves| && Moved(r, l, moves[i]) == (t, entries) && |r.stages| <= 2
    requires RaceLog(t, l, moves[i + 1..]) == log && NeverMore(t, l, moves[i + 1..], 2)
    ensures RaceLog(r, l, moves[i..]) == entries + log && NeverMore(r, l, moves[i..], 2)
  {
    assert moves[i..][0] == moves[i] && moves[i..][1..] == moves[i + 1..];
  }

  lemma OneFail(now: real, ttl: real)
    ensures Streak([now], ttl) == 1 && Streak([now, now], ttl) >= 1
  {
  }

  /** A whole attempt that fails and locks, with a limit of one. */
  lemma FailsAndLocks(
    l: Limits, moves: seq<Move>, i: nat, until: Option<real>, other: map<nat, Stage>, now: real, log: seq<Entry>)
    requires l.Valid() && l.maxFails == 1 && 0 !in other && |other| <= 1 && (until.Some? ==> until.value < now)
    requires i + 4 <= |moves| && moves[i] == Look(0, now) && moves[i + 1] == Check(0, false, now)
    requires moves[i + 2] == Lock(0, now) && moves[i + 3] == Clear(0, now)
    requires var end := Race([], Some(now + l.lock), other);
             RaceLog(end, l, moves[i + 4..]) == log && NeverMore(end, l, moves[i + 4..], 2)
    ensures var start := Race([], until, other);
            RaceLog(start, l, moves[i..]) == [Entry(Invalid, now)] + log && NeverMore(start, l, moves[i..], 2)
  {
    var over := other[0 := Checked][0 := Over];
    LocksAndClears(l, moves, i + 2, until, other, over, now, log);
    FailsOnce(l, moves, i, until, other, over, now, log);
  }

  lemma LocksAndClears(
    l: Limits, moves: seq<Move>, i: nat, until: Option<real>, other: map<nat, Stage>, over: map<nat, Stage>,
    now: real, log: seq<Entry>)
    requires 0 !in other && |other| <= 1 && over == other[0 := Checked][0 := Over]
    requires i + 2 <= |moves| && moves[i] == Lock(0, now) && moves[i + 1] == Clear(0, now)
    requires var end := Race([], Some(now + l.lock), other);
             RaceLog(end, l, moves[i + 2..]) == log && NeverMore(end, l, moves[i + 2..], 2)
    ensures var start := Race([now], until, over);
            RaceLog(start, l, moves[i..]) == log && NeverMore(start, l, moves[i..], 2)
  {
    var owing := over[0 := Owing];
    assert owing - {0} == other;
    Onto(Race([now], Some(now + l.lock), owing), l, moves, i + 1, Race([], Some(now + l.lock), other), [], log);
    Onto(Race([now], until, over), l, moves, i, Race([now], Some(now + l.lock), owing), [], log);
  }

  lemma FailsOnce(
    l: Limits, moves: seq<Move>, i: nat, until: Option<real>, other: map<nat, Stage>, over: map<nat, Stage>,
    now: real, log: seq<Entry>)
    requires l.maxFails == 1 && 0 !in other && |other| <= 1 && (until.Some? ==> until.value < now)
    requires over == other[0 := Checked][0 := Over]
    requires i + 2 <= |moves| && moves[i] == Look(0, now) && moves[i + 1] == Check(0, false, now)
    requires var end := Race([now], until, over);
             RaceLog(end, l, moves[i + 2..]) == log && NeverMore(end, l, moves[i + 2..], 2)
    ensures var start := Race([], until, other);
            RaceLog(start, l, moves[i..]) == [Entry(Invalid, now)] + log && NeverMore(start, l, moves[i..], 2)
  {
    OneFail(now, l.lock);
    var checked := other[0 := Checked];
    assert [] + [now] == [now];
    Onto(Race([], until, checked), l, moves, i + 1, Race([now], until, over), [Entry(Invalid, now)], log);
    Onto(Race([], until, other), l, moves, i, Race([], until, checked), [], [Entry(Invalid, now)] + log);
  }

  /** The lock is gone again, and two more checks fail behind the one that set it. */
  lemma AfterTheLock(l: Limits, moves: seq<Move>, late: real)
    requires l.Valid() && l.maxFails == 1 && StaleDeletion(l, moves) && late == l.lock + 1.0
    ensures var r := Race([], Some(late + l.lock), map[1 := Stale]);
            && RaceLog(r, l, moves[10..]) == [Entry(Invalid, late), Entry(Invalid, late)]
            && NeverMore(r, l, moves[10..], 2)
  {
    OneFail(late, l.lock);
    var s0 := map[1 := Stale];
    var s1 := s0[1 := Checked];
    var s2 := s1[1 := Over];
    assert [] + [late] == [late];
    OneMoreFails(l, moves, s2, late);
    Onto(Race([], None, s1), l, moves, 11, Race([late], None, s2), [Entry(Invalid, late)], [Entry(Invalid, late)]);
    Onto(Race([], Some(late + l.lock), s0), l, moves, 10, Race([], None, s1), [],
         [Entry(Invalid, late), Entry(Invalid, late)]);
  }

  lemma OneMoreFails(l: Limits, moves: seq<Move>, other: map<nat, Stage>, late: real)
    requires l.Valid() && l.maxFails == 1 && StaleDeletion(l, moves) && late == l.lock + 1.0
    requires 0 !in other && |other| == 1
    ensures var r := Race([late], None, other);
            RaceLog(r, l, moves[12..]) == [Entry(Invalid, late)] && NeverMore(r, l, moves[12..], 2)
  {
    OneFail(late, l.lock);
    var s3 := other[0 := Checked];
    var s4 := s3[0 := Over];
    assert [late] + [late] == [late, late];
    Onto(Race([late], None, s3), l, moves, 13, Race([late, late], None, s4), [Entry(Invalid, late)], []);
    Onto(Race([late], None, other), l, moves, 12, Race([late], None, s3), [], [Entry(Invalid, late)]);
  }

  lemma StaleRead(l: Limits, moves: seq<Move>, log: seq<Entry>)
    requires l.Valid() && StaleDeletion(l, moves)
    requires var r := Race([], Some(l.lock), map[1 := Stale]);
             RaceLog(r, l, moves[6..]) == log && NeverMore(r, l, moves[6..], 2)
    ensures var r := Race([], Some(l.lock), map[]);
            RaceLog(r, l, moves[4..]) == log && NeverMore(r, l, moves[4..], 2)
  {
    var s0: map<nat, Stage> := map[];
    var s1 := s0[1 := Seen(l.lock)];
    assert s1[1 := Stale] == map[1 := Stale];
    Onto(Race([], Some(l.lock), s1), l, moves, 5, Race([], Some(l.lock), map[1 := Stale]), [], log);
    Onto(Race([], Some(l.lock), s0), l, moves, 4, Race([], Some(l.lock), s1), [], log);
  }

  lemma BehindTheRead(l: Limits, moves: seq<Move>, late: real)
    requires l.Valid() && l.maxFails == 1 && StaleDeletion(l, moves) && late == l.lock + 1.0
    ensures var r, failed := Race([], Some(l.lock), map[1 := Stale]), Entry(Invalid, late);
            RaceLog(r, l, moves[6..]) == [failed] + [failed, failed] && NeverMore(r, l, moves[6..], 2)
  {
    AfterTheLock(l, moves, late);
    FailsAndLocks(l, moves, 6, Some(l.lock), map[1 := Stale], late, [Entry(Invalid, late), Entry(Invalid, late)]);
  }

  lemma FromTheStart(l: Limits, moves: seq<Move>, log: seq<Entry>)
    requires l.Valid() && l.maxFails == 1 && StaleDeletion(l, moves)
    requires var r := Race([], Some(l.lock), map[1 := Stale]);
             RaceLog(r, l, moves[6..]) == log && NeverMore(r, l, moves[6..], 2)
    ensures RaceLog(CALM, l, moves[0..]) == [Entry(Invalid, 0.0)] + log && NeverMore(CALM, l, moves[0..], 2)
  {
    StaleRead(l, moves, log);
    FailsAndLocks(l, moves, 0, None, map[], 0.0, log);
  }

  /** Two attempts at a time, a limit of one: three checks fail at one instant. */
  lemma StaleDeletionFails(l: Limits, moves: seq<Move>)
    requires l.Valid() && l.maxFails == 1 && StaleDeletion(l, moves)
    ensures NeverMore(CALM, l, moves, 2)
    ensures var failed := Entry(Invalid, l.lock + 1.0);
            RaceLog(CALM, l, moves) == [Entry(Invalid, 0.0)] + ([failed] + [failed, failed])
  {
    var failed := Entry(Invalid, l.lock + 1.0);
    BehindTheRead(l, moves, l.lock + 1.0);
    FromTheStart(l, moves, [failed] + [failed, failed]);
    assert moves[0..] == moves;
  }
}
