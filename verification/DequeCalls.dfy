/**
 The calls of a run: every push that began takes effect exactly once and in order, every pop that began
 answers, and a call that is left alone finishes and does what it would do to a plain FIFO queue.
 */
module DequeCalls {
  import opened Types
  import opened Bits
  import opened Deque

  // ------------------------------------------------------------ calls of a run

  /** The tasks of the pushes that found the owner between calls, in order. */
  ghost function Begun<T>(s: State<T>, moves: seq<Move<T>>): seq<T>
    decreases |moves|
  {
    if moves == [] then []
    else (if moves[0].Push? && AtRest(s.owner) then [moves[0].task] else []) + Begun(Step(s, moves[0]), moves[1..])
  }

  ghost function ThenHand<T>(cont: Then<T>): seq<T> {
    match cont
    case ThenPush(task, _) => [task]
    case ThenPop(_, _) => []
  }

  /** The task of the push that is under way. */
  ghost function InHand<T>(o: Owner<T>): seq<T> {
    match o
    case PushLoadFront(task, _) => [task]
    case PushWrite(task, _) => [task]
    case PushStore(task, _) => [task]
    case ResizeLoadBack(_, cont) => ThenHand(cont)
    case ResizeLoadFront(_, _, cont) => ThenHand(cont)
    case ResizeCopy(_, _, _, cont) => ThenHand(cont)
    case _ => []
  }

  lemma StepPushes<T>(s: State<T>, m: Move<T>)
    ensures Step(s, m).pushed + InHand(Step(s, m).owner)
         == s.pushed + InHand(s.owner) + if m.Push? && AtRest(s.owner) then [m.task] else []
  {
  }

  lemma {:induction false} RunPushes<T>(s: State<T>, moves: seq<Move<T>>)
    ensures Run(s, moves).pushed + InHand(Run(s, moves).owner) == s.pushed + InHand(s.owner) + Begun(s, moves)
    decreases |moves|
  {
    hide Step, InHand;
    if moves == [] {
    } else {
      StepPushes(s, moves[0]);
      RunPushes(Step(s, moves[0]), moves[1..]);
    }
  }

  /**
   No push is lost, doubled or overtaken: over every interleaving the tasks pushed are those of the
   pushes that began, in order, and only the one still under way is missing.
   */
  lemma PushesTakeEffect<T>(thieves: nat, moves: seq<Move<T>>)
    ensures var s := Run(Init<T>(thieves), moves);
      && s.pushed + InHand(s.owner) == Begun(Init<T>(thieves), moves) && |InHand(s.owner)| <= 1
      && (AtRest(s.owner) ==> s.pushed == Begun(Init<T>(thieves), moves))
  {
    RunPushes(Init<T>(thieves), moves);
  }

  ghost function PopsBegun<T>(s: State<T>, moves: seq<Move<T>>): nat
    decreases |moves|
  {
    if moves == [] then 0 else One(moves[0].Pop? && AtRest(s.owner)) + PopsBegun(Step(s, moves[0]), moves[1..])
  }

  ghost predicate Answered<T>(o: Owner<T>) { o.Popped? || o.PoppedNone? }

  /** How often the owner got to a pop's answer. */
  ghost function Answers<T>(s: State<T>, moves: seq<Move<T>>): nat
    decreases |moves|
  {
    if moves == [] then 0
    else
      var s' := Step(s, moves[0]);
      One(Answered(s'.owner) && !Answered(s.owner)) + Answers(s', moves[1..])
  }

  ghost predicate Popping<T>(o: Owner<T>) {
    || o.PopLoadFront? || o.PopFetchAdd? || o.PopRestore? || o.PopRead?
    || ((o.ResizeLoadBack? || o.ResizeLoadFront? || o.ResizeCopy?) && o.cont.ThenPop?)
  }

  /** Every pop that began has answered, or is under way: over every run, it never just returns. */
  lemma {:induction false} PopsAnswer<T>(s: State<T>, moves: seq<Move<T>>)
    ensures Answers(s, moves) + One(Popping(Run(s, moves).owner)) == PopsBegun(s, moves) + One(Popping(s.owner))
    decreases |moves|
  {
    if moves == [] {
    } else {
      PopsAnswer(Step(s, moves[0]), moves[1..]);
    }
  }

  /** An upper bound for the steps the owner still has to make until its call returns. */
  ghost function ToGo<T>(s: State<T>): int {
    match s.owner
    case Ready => 0
    case Popped(_, _) => 0
    case PoppedNone(_) => 0
    case PushStore(_, _) => 1
    case PopRestore(_) => 1
    case PushWrite(_, _) => 2
    case ResizeCopy(i, b, _, _) => b - i + 3
    case ResizeLoadFront(_, b, _) => b + 4
    case ResizeLoadBack(_, _) => s.back + 5
    case PushLoadFront(_, _) => s.back + 6
    case PopRead(_, _) => s.back + 6
    case PopFetchAdd(_, _) => s.back + 7
    case PopLoadFront(_) => s.back + 8
  }

  /** The owner waits for nobody: its own steps bring its call nearer to the end, and no stealer sets it back. */
  lemma OwnerGoes<T>(s: State<T>)
    requires Inv(s)
    ensures ToGo(s) >= 0 && (AtRest(s.owner) <==> ToGo(s) == 0)
    ensures !AtRest(s.owner) ==> ToGo(OwnerStep(s)) < ToGo(s)
    ensures forall t :: 0 <= t < |s.stealers| ==> ToGo(StealStep(s, t)) == ToGo(s)
  {
    forall t | 0 <= t < |s.stealers|
      ensures ToGo(StealStep(s, t)) == ToGo(s)
    {
      StealLeavesOwner(s, t);
    }
    hide Read, Write, StealStep;
  }

  lemma StealLeavesOwner<T>(s: State<T>, t: nat)
    requires t < |s.stealers|
    ensures StealStep(s, t).owner == s.owner && StealStep(s, t).back == s.back
  {
  }

  // -------------------------------------------------------- a call left alone

  /** The owner makes `k` steps in a row. */
  ghost function Alone<T>(s: State<T>, k: nat): State<T>
    decreases k
  {
    if k == 0 then s else Alone(OwnerStep(s), k - 1)
  }

  lemma {:induction false} AloneAdds<T>(s: State<T>, j: nat, k: nat)
    ensures Alone(s, j + k) == Alone(Alone(s, j), k)
    decreases j
  {
    if j == 0 {
    } else {
      AloneAdds(OwnerStep(s), j - 1, k);
    }
  }

  /** Nothing that others see changed, but for the buffer. */
  ghost predicate Unseen<T>(s: State<T>, s': State<T>) {
    && s'.front == s.front && s'.back == s.back && s'.stealers == s.stealers
    && s'.pushed == s.pushed && s'.claims == s.claims
  }

  function Resume<T>(cont: Then<T>): Owner<T> {
    match cont
    case ThenPush(task, b) => PushWrite(task, b)
    case ThenPop(n, got) => Popped(n, got)
  }

  /** A resize copies what is left, swaps the buffers and goes on with its call. */
  lemma {:induction false} CopyAlone<T>(s: State<T>) returns (k: nat)
    requires Inv(s) && s.owner.ResizeCopy?
    ensures var e := Alone(s, k);
      && Inv(e) && Unseen(s, e) && e.owner == Resume(s.owner.cont)
      && |e.buffer| == |s.owner.copy| && e.retired == s.retired + [s.buffer]
    decreases s.owner.b - s.owner.i
  {
    hide Inv, Read, Write;
    var s1 := OwnerStep(s);
    ResizeCopyKeeps(s);
    assert s.owner.i <= s.owner.b by { CopyBound(s); }
    if s.owner.i == s.owner.b {
      k := 1;
      assert Alone(s, 1) == s1 by { assert Alone(s1, 0) == s1; }
    } else {
      k := CopyAlone(s1);
      k := k + 1;
    }
  }

  lemma CopyBound<T>(s: State<T>)
    requires Inv(s) && s.owner.ResizeCopy?
    ensures s.owner.i <= s.owner.b
  {
  }

  lemma CapPositive<T>(s: State<T>)
    requires Inv(s) && s.owner.ResizeLoadFront?
    ensures s.owner.cap > 0
  {
  }

  lemma ResizeAlone<T>(s: State<T>) returns (k: nat)
    requires Inv(s) && s.owner.ResizeLoadBack?
    ensures var e := Alone(s, k);
      && Inv(e) && Unseen(s, e) && e.owner == Resume(s.owner.cont)
      && |e.buffer| == s.owner.cap && e.retired == s.retired + [s.buffer]
  {
    hide Inv, Read, Write;
    ResizeStartKeeps(s);
    var s1 := OwnerStep(s);
    ResizeStartKeeps(s1);
    var s2 := OwnerStep(s1);
    assert s1.owner.cap > 0 by { CapPositive(s1); }
    k := CopyAlone(s2);
    assert Alone(s1, k + 1) == Alone(s2, k) && Alone(s, k + 2) == Alone(s1, k + 1);
    k := k + 2;
  }

  /**
   A push that is left alone finishes: its task, and nothing else, is in the queue, and the buffer has
   doubled exactly when it was full.
   */
  lemma PushAlone<T>(s: State<T>, task: T) returns (k: nat)
    requires Inv(s) && AtRest(s.owner)
    ensures var e := Alone(Step(s, Push(task)), k);
      && Inv(e) && e.owner == Ready && e.pushed == s.pushed + [task]
      && e.claims == s.claims && e.front == s.front && e.back == s.back + 1 && e.stealers == s.stealers
      && |e.buffer| == (if |s.pushed| - |s.claims| == |s.buffer| then 2 * |s.buffer| else |s.buffer|)
  {
    hide Inv, Read, Write, Alone;
    var s0 := Step(s, Push(task));
    StepKeeps(s, Push(task));
    InvAtRest(s);
    PushKeeps(s0);
    OneStep(s0);
    var s1 := OwnerStep(s0);
    var s2, j := s1, 1;
    if s1.owner.ResizeLoadBack? {
      j := ResizeAlone(s1);
      s2 := Alone(s1, j);
      AloneAdds(s0, 1, j);
      j := j + 1;
    }
    assert s2 == Alone(s0, j) && s2.owner == PushWrite(task, s.back);
    PushKeeps(s2);
    PushKeeps(OwnerStep(s2));
    AloneAdds(s0, j, 2);
    TwoSteps(s2);
    k := j + 2;
  }

  lemma TwoSteps<T>(s: State<T>)
    ensures Alone(s, 2) == OwnerStep(OwnerStep(s))
  {
    hide OwnerStep;
    assert Alone(OwnerStep(OwnerStep(s)), 0) == OwnerStep(OwnerStep(s));
    assert Alone(OwnerStep(s), 1) == OwnerStep(OwnerStep(s));
  }

  lemma InvAtRest<T>(s: State<T>)
    requires Inv(s) && AtRest(s.owner)
    ensures s.front == |s.claims| <= |s.pushed| == s.back <= |s.claims| + |s.buffer|
  {
  }

  /**
   A pop that is left alone answers the oldest task not handed out, or that there is none; the buffer
   has been halved exactly when it is above the least capacity and was at most a quarter full.
   */
  lemma PopAlone<T>(s: State<T>) returns (k: nat)
    requires Inv(s) && AtRest(s.owner)
    ensures var e := Alone(Step(s, Pop), k); var len := |s.pushed| - |s.claims|;
      && Inv(e) && e.pushed == s.pushed && e.back == s.back && e.stealers == s.stealers
      && (if len == 0 then e.owner == PoppedNone(true) && e.claims == s.claims && |e.buffer| == |s.buffer|
          else
            var task := Some(s.pushed[|s.claims|]);
            && len > 0 && e.owner == Popped(|s.claims|, task) && e.claims == s.claims + [task]
            && |e.buffer| == if |s.buffer| > MIN_CAP && len <= |s.buffer| / 4 then |s.buffer| / 2 else |s.buffer|)
  {
    InvAtRest(s);
    StepKeeps(s, Pop);
    var s0 := Step(s, Pop);
    hide Inv, Read, Write, IsPow2;
    OneStep(s0);
    if |s.pushed| == |s.claims| {
      k := 1;
      PopKeeps(s0);
    } else {
      PopTakes(s0);
      var s3 := Alone(s0, 3);
      k := 3;
      if s3.owner.ResizeLoadBack? {
        var j := ResizeAlone(s3);
        AloneAdds(s0, 3, j);
        k := 3 + j;
      }
    }
  }

  lemma OneStep<T>(s: State<T>)
    ensures Alone(s, 1) == OwnerStep(s)
  {
    hide OwnerStep;
    assert Alone(OwnerStep(s), 0) == OwnerStep(s);
  }

  lemma PopReads<T>(s: State<T>)
    requires Inv(s) && s.owner.PopRead? && s.owner.f + 1 == |s.claims| <= |s.pushed|
    ensures var f := s.owner.f; var task := Some(s.pushed[f]);
      OwnerStep(s) == s.(claims := s.claims[f := task], owner :=
        if |s.buffer| > MIN_CAP && s.owner.len <= |s.buffer| / 4
        then ResizeLoadBack(|s.buffer| / 2, ThenPop(f, task)) else Popped(f, task))
  {
    assert Read(s.buffer, s.owner.f) == Some(s.pushed[s.owner.f]);
    hide Inv, Read;
  }

  /** The three accesses of a pop that finds something. */
  lemma PopTakes<T>(s: State<T>)
    requires Inv(s) && s.owner == PopLoadFront(s.back) && |s.claims| < |s.pushed|
    ensures var e := Alone(s, 3); var len := |s.pushed| - |s.claims|; var task := Some(s.pushed[|s.claims|]);
      && Inv(e) && e == s.(front := e.front, claims := s.claims + [task], owner := e.owner)
      && e.owner == if |s.buffer| > MIN_CAP && len <= |s.buffer| / 4
                    then ResizeLoadBack(|s.buffer| / 2, ThenPop(|s.claims|, task)) else Popped(|s.claims|, task)
  {
    InvShared(s);
    hide Inv, Alone, Read;
    var len, f := |s.pushed| - |s.claims|, |s.claims|;
    var s1 := s.(owner := PopFetchAdd(s.back, len));
    assert OwnerStep(s) == s1;
    PopKeeps(s);
    var s2 := s1.(front := f + 1, claims := s.claims + [None], owner := PopRead(f, len));
    assert OwnerStep(s1) == s2;
    PopKeeps(s1);
    PopReads(s2);
    PopKeeps(s2);
    hide OwnerStep;
    assert (s.claims + [None])[f := Some(s.pushed[f])] == s.claims + [Some(s.pushed[f])];
    OneStep(s);
    TwoSteps(s1);
    AloneAdds(s, 1, 2);
  }

  /** Thief `t` makes `k` steps in a row. */
  ghost function ThiefAlone<T>(s: State<T>, t: nat, k: nat): State<T>
    decreases k
  {
    if k == 0 then s else ThiefAlone(Step(s, Steal(t)), t, k - 1)
  }

  predicate Outside<T>(pc: Stealer<T>) { pc.Rest? || pc.Stole? || pc.StoleNone? || pc.Retry? }

  /**
   A steal that is left alone never has to retry: whatever the owner is in the middle of, it takes the
   oldest task not handed out, or reports that there is none.
   */
  lemma StealAlone<T>(s: State<T>, t: nat) returns (k: nat)
    requires Inv(s) && t < |s.stealers| && Outside(s.stealers[t])
    ensures var e := ThiefAlone(s, t, k);
      && |e.stealers| == |s.stealers| && |s.claims| <= |s.pushed| == |e.pushed|
      && (if |s.claims| == |s.pushed| then e.stealers[t] == StoleNone(true) && e.claims == s.claims
          else
            var task := Some(s.pushed[|s.claims|]);
            e.stealers[t] == Stole(|s.claims|, task) && e.claims == s.claims + [task])
  {
    InvShared(s);
    hide Inv, Read, Slot;
    if Drained(s) {
      k := 2;
      ThiefGoes(s, t, LoadBack(s.front, true));
      Goes(s, t, LoadBack(s.front, true), StoleNone(true), 0);
    } else {
      k := 6;
      StealLooks(s, t);
    }
  }

  /** With tasks left, five accesses bring a thief to its exchange with the front task in hand. */
  lemma StealLooks<T>(s: State<T>, t: nat)
    requires t < |s.stealers| && Outside(s.stealers[t]) && s.front < s.back && !Drained(s)
    ensures ThiefAlone(s, t, 6) == StealStep(At(s, t, Cas(s.front, Read(s.buffer, s.front))), t)
  {
    hide Read;
    var f, id, task := s.front, |s.retired|, Read(s.buffer, s.front);
    ThiefGoes(s, t, LoadBack(f, false));
    Goes(s, t, LoadBack(f, false), LoadBuffer(f), 4);
    Goes(s, t, LoadBuffer(f), ReadCell(f, id), 3);
    Goes(s, t, ReadCell(f, id), Recheck(f, id, task), 2);
    Goes(s, t, Recheck(f, id, task), Cas(f, task), 1);
    var s5 := At(s, t, Cas(f, task));
    hide StealStep;
    assert ThiefAlone(Step(s5, Steal(t)), t, 0) == Step(s5, Steal(t));
  }

  lemma InvShared<T>(s: State<T>)
    requires Inv(s)
    ensures |s.claims| <= s.back == |s.pushed| && (s.front == |s.claims| || (s.front == s.back + 1 && Drained(s)))
    ensures |s.claims| < |s.pushed| ==> Read(s.buffer, |s.claims|) == Some(s.pushed[|s.claims|])
  {
  }

  lemma ThiefGoes<T>(s: State<T>, t: nat, pc: Stealer<T>)
    requires t < |s.stealers| && Step(s, Steal(t)) == At(s, t, pc)
    ensures forall k: nat :: ThiefAlone(s, t, k + 1) == ThiefAlone(At(s, t, pc), t, k)
  {
  }

  /** A step that moves only the thief, from `pc` to `pc'`. */
  lemma Goes<T>(s: State<T>, t: nat, pc: Stealer<T>, pc': Stealer<T>, k: nat)
    requires t < |s.stealers| && StealStep(At(s, t, pc), t) == At(At(s, t, pc), t, pc')
    ensures ThiefAlone(At(s, t, pc), t, k + 1) == ThiefAlone(At(s, t, pc'), t, k)
  {
    assert At(At(s, t, pc), t, pc') == At(s, t, pc');
  }
}
