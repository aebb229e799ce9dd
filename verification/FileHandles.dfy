/** The handle that `cockpit.file` makes: the one read and the one replace that may be under way, and the calls of
    `modify` that wait for them. Its methods are shown to make steps of `FileModify`, whatever other handles and
    writers do in between. */
module FileHandles {
  import opened Options
  import opened FileModify

  /** What a promise was settled with while its callbacks have not been called yet. */
  datatype Answer =
    | ReadIs(content: Content, tag: Tag)
    | ReadFailed
    | ReplacedAs(tag: Tag)
    | Conflicted
    | ReplaceFailed

  /** What a call's own promise was settled with. */
  datatype Outcome = Done(content: Content, tag: Tag) | Problem

  /** How the channel of a read closes. */
  datatype ReadEnd = ReadOk(content: Content, tag: Tag) | ReadChanged | ReadProblem

  /** How the channel of a replace closes. */
  datatype ReplaceEnd = ReplaceOk(tag: Tag) | ReplaceChanged | ReplaceProblem

  /** The variables of a handle, and the version that was current when its read was opened. */
  datatype View = View(reading: bool, waiting: seq<nat>, replacing: Option<nat>, newContents: map<nat, Content>,
                       answers: map<nat, Answer>, settled: map<nat, Outcome>, began: nat)

  // ----- How a handle stands for the calls made through it

  ghost predicate CallOk(s: State, v: View, o: nat) {
    && o in s.ops && s.ops[o].seen <= |s.log|
    && (v.reading && o !in v.waiting ==> s.ops[o].seen <= v.began)
    && (o in v.waiting <==> s.ops[o].phase.Reading?)
    && (o in v.settled <==> (s.ops[o].phase.Resolved? || s.ops[o].phase.Rejected?) && o !in v.answers)
    && (v.replacing == Some(o) ==> o !in v.answers)
    && PhaseOk(s, v, o, s.ops[o].phase)
  }

  ghost predicate PhaseOk(s: State, v: View, o: nat, p: Phase) {
    match p
    case Reading(since) => since <= v.began && v.replacing != Some(o) && o !in v.answers
    case Replacing(base, content, expected, _) =>
      if o in v.answers then v.answers[o].ReadIs? && v.answers[o].content == base && expected == Some(v.answers[o].tag)
      else v.replacing == Some(o) && o in v.newContents && v.newContents[o] == content
    case Refused => if o in v.answers then v.answers[o] == Conflicted else v.replacing == Some(o)
    case Committed(content, k) =>
      && o in v.newContents && v.newContents[o] == content
      && if o in v.answers then v.answers[o] == ReplacedAs(TagOf(s.history, k)) else v.replacing == Some(o)
    case Resolved(content, tag, _) =>
      o !in v.answers && v.replacing != Some(o) && o in v.settled && v.settled[o] == Done(content, tag)
    case Rejected =>
      && v.replacing != Some(o)
      && if o in v.answers then v.answers[o] == ReadFailed || v.answers[o] == ReplaceFailed
         else o in v.settled && v.settled[o] == Problem
  }

  ghost predicate Tracks(s: State, mine: set<nat>, v: View) {
    && (forall o | o in mine :: CallOk(s, v, o))
    && (forall o | o in v.waiting :: o in mine)
    && (forall i, j | 0 <= i < j < |v.waiting| :: v.waiting[i] != v.waiting[j])
    && (v.reading ==> v.began <= |s.log|)
    && (v.replacing.Some? ==> v.replacing.value in mine)
    && v.answers.Keys <= mine && v.settled.Keys <= mine
  }

  /** The same for a call, in the file and in the handle, but that the read may be a later one. */
  ghost predicate SameFor(s: State, s': State, v: View, v': View, q: nat) {
    && q in s.ops && q in s'.ops && s'.ops[q] == s.ops[q]
    && s.history <= s'.history && |s.log| <= |s'.log|
    && (q in v.waiting <==> q in v'.waiting) && (v.replacing == Some(q) <==> v'.replacing == Some(q))
    && (q in v.answers <==> q in v'.answers) && (q in v.answers ==> v'.answers[q] == v.answers[q])
    && (q in v.settled <==> q in v'.settled) && (q in v.settled ==> v'.settled[q] == v.settled[q])
    && (q in v.newContents ==> q in v'.newContents && v'.newContents[q] == v.newContents[q])
    && (q in v.waiting ==> v.began <= v'.began)
    && (v'.reading ==> (v.reading && v.began <= v'.began) || |s.log| <= v'.began)
  }

  lemma SameIsOk(s: State, s': State, v: View, v': View, q: nat)
    requires CallOk(s, v, q) && SameFor(s, s', v, v', q)
    requires s.ops[q].phase.Committed? ==> s.ops[q].phase.version < |s.history|
    ensures CallOk(s', v', q)
  {
  }

  lemma CommittedIsThere(f: Callbacks, first: Content, s: State, q: nat)
    requires Inv(f, first, s) && q in s.ops
    ensures s.ops[q].phase.Committed? ==> s.ops[q].phase.version < |s.history|
  {
    assert OpOk(f, s, q, s.ops[q]);
  }

  /** A step changes no other call, and only adds to the file. */
  lemma OthersSame(f: Callbacks, first: Content, s: State, step: Step, q: nat)
    requires Inv(f, first, s) && Enabled(s, step) && q in s.ops && (step.Elsewhere? || step.o != q)
    ensures var n := Next(f, s, step);
      && q in n.ops && n.ops[q] == s.ops[q]
      && s.history <= n.history && |s.log| <= |n.log|
      && (s.ops[q].phase.Committed? ==> s.ops[q].phase.version < |s.history|)
  {
    hide NewContent;
    CommittedIsThere(f, first, s, q);
  }

  /** After a step of one call all others are tracked as they were. */
  lemma OthersTracked(f: Callbacks, first: Content, s: State, step: Step, mine: set<nat>, v: View, v': View)
    requires Inv(f, first, s) && Enabled(s, step) && !step.Elsewhere? && Tracks(s, mine, v)
    requires forall q | q in mine && q != step.o :: q in v.waiting <==> q in v'.waiting
    requires forall q | q in mine && q != step.o :: v.replacing == Some(q) <==> v'.replacing == Some(q)
    requires forall q | q != step.o :: q in v.answers <==> q in v'.answers
    requires forall q | q != step.o && q in v.answers :: v'.answers[q] == v.answers[q]
    requires forall q | q != step.o :: q in v.settled <==> q in v'.settled
    requires forall q | q != step.o && q in v.settled :: v'.settled[q] == v.settled[q]
    requires forall q | q != step.o && q in v.newContents :: q in v'.newContents && v'.newContents[q] == v.newContents[q]
    requires v.waiting != [] ==> v.began <= v'.began
    requires v'.reading ==> (v.reading && v.began <= v'.began) || |s.log| <= v'.began
    ensures forall q | q in mine && q != step.o :: CallOk(Next(f, s, step), v', q)
  {
    hide Next, Enabled, Inv, CallOk;
    forall q | q in mine && q != step.o
      ensures CallOk(Next(f, s, step), v', q)
    {
      CallIsThere(s, v, q);
      OthersSame(f, first, s, step, q);
      SameIsOk(s, Next(f, s, step), v, v', q);
    }
  }

  lemma CallIsThere(s: State, v: View, q: nat)
    requires CallOk(s, v, q)
    ensures q in s.ops
  {
  }

  // ----- Steps in a row

  /** What the end of a read means to a call that waits for it. */
  datatype Ended = Delivers(version: nat) | Changes | Fails {
    function StepOf(o: nat): Step {
      match this
      case Delivers(k) => ReadDone(o, k)
      case Changes => ReadConflict(o)
      case Fails => Fail(o)
    }
  }

  function Each(waiting: seq<nat>, e: Ended): seq<Step> {
    if waiting == [] then [] else Each(waiting[..|waiting| - 1], e) + [e.StepOf(waiting[|waiting| - 1])]
  }

  lemma {:induction false} RunMore(f: Callbacks, s: State, steps: seq<Step>, step: Step)
    requires Runs(f, s, steps) && Enabled(Run(f, s, steps), step)
    ensures Runs(f, s, steps + [step]) && Run(f, s, steps + [step]) == Next(f, Run(f, s, steps), step)
    decreases |steps|
  {
    hide Next, Enabled;
    var n := Next(f, s, step);
    if steps == [] {
      assert [step][1..] == [] && [] + [step] == [step];
      assert Runs(f, n, []) && Run(f, n, []) == n;
    } else {
      assert (steps + [step])[0] == steps[0] && (steps + [step])[1..] == steps[1..] + [step];
      RunMore(f, Next(f, s, steps[0]), steps[1..], step);
    }
  }

  lemma EachMore(waiting: seq<nat>, i: nat, e: Ended)
    requires i < |waiting|
    ensures Each(waiting[..i + 1], e) == Each(waiting[..i], e) + [e.StepOf(waiting[i])]
  {
    assert waiting[..i + 1][..i] == waiting[..i];
  }

  lemma OneStep(f: Callbacks, s: State, step: Step)
    requires Enabled(s, step)
    ensures Runs(f, s, [step]) && Run(f, s, [step]) == Next(f, s, step)
  {
    hide Next, Enabled;
    assert Runs(f, s, []) && Run(f, s, []) == s;
    RunMore(f, s, [], step);
    assert [] + [step] == [step];
  }

  /** The replace that a new one aborts. */
  function Aborted(replacing: Option<nat>): seq<Step> {
    if replacing.Some? then [Fail(replacing.value)] else []
  }

  // ----- The code

  class FileHandle {
    const f: Callbacks
    var reading: bool
    var waiting: seq<nat>
    var replacing: Option<nat>
    var newContents: map<nat, Content>
    var answers: map<nat, Answer>
    var settled: map<nat, Outcome>

    /** The file with all calls on it, those that are made here, and the version when the read was opened. */
    ghost const first: Content
    ghost var world: State
    ghost var mine: set<nat>
    ghost var began: nat

    ghost function Now(): View
      reads this
    {
      View(reading, waiting, replacing, newContents, answers, settled, began)
    }

    ghost predicate Valid()
      reads this
    {
      Inv(f, first, world) && Tracks(world, mine, Now()) && (waiting != [] ==> reading)
    }

    constructor (f: Callbacks, ghost first: Content, ghost world: State)
      requires Inv(f, first, world)
      ensures Valid() && this.f == f && this.first == first && this.world == world && mine == {}
    {
      this.f, this.first, this.world := f, first, world;
      reading, waiting, replacing, newContents, answers, settled := false, [], None, map[], map[], map[];
      mine, began := {}, 0;
    }

    /** What others do: another writer, a call on another handle, or the server with the replace that is under way. */
    ghost method Happens(step: Step)
      requires Valid() && Enabled(world, step)
      requires
        || step.Elsewhere? || step.o !in mine
        || ((step.ReplaceDone? || step.ReplaceConflict?) && replacing == Some(step.o))
      modifies `world
      ensures Valid() && world == Next(f, old(world), step)
    {
      hide Inv, Tracks, Next, Enabled, CallOk;
      var v := Now();
      StepInv(f, first, world, step);
      HappensTracked(f, first, world, mine, v, step);
      world := Next(f, world, step);
    }

    /** Open a read, unless one is under way; others than calls of `modify` may do so too. */
    method Read()
      modifies `reading, `began
      ensures reading && began == (if old(reading) then old(began) else |world.log|)
      ensures old(Valid()) ==> Valid()
    {
      hide Inv, Tracks;
      if !reading {
        if Tracks(world, mine, Now()) {
          OpenTracked(world, mine, Now());
        }
        reading, began := true, |world.log|;
      }
    }

    /** Join the read that is under way, or open one. */
    method ReadThenUpdate(o: nat)
      modifies `reading, `waiting, `began
      ensures reading && waiting == old(waiting) + [o]
      ensures began == if old(reading) then old(began) else |world.log|
    {
      Read();
      waiting := waiting + [o];
    }

    /** Ask the callback, and replace the file; a replace that is under way is aborted. */
    method Update(o: nat, content: Content)
      modifies `newContents, `answers, `replacing
      ensures newContents == old(newContents)[o := NewContent(f, o, content)] && replacing == Some(o)
      ensures answers == if old(replacing).Some? then old(answers)[old(replacing).value := ReplaceFailed] else old(answers)
    {
      newContents := newContents[o := NewContent(f, o, content)];
      if replacing.Some? {
        answers := answers[replacing.value := ReplaceFailed];
      }
      replacing := Some(o);
    }

    /** The call of `modify`, with a content and a tag or without. */
    method Modify(o: nat, initial: Option<(Content, Option<Tag>)>, ghost version: Option<nat>) returns (ghost steps: seq<Step>)
      requires Valid() && o !in world.ops
      requires initial.Some? ==> Enabled(world, CallWith(o, initial.value.0, initial.value.1, version))
      modifies this
      ensures Valid() && mine == old(mine) + {o}
      ensures Runs(f, old(world), steps) && world == Run(f, old(world), steps)
      ensures steps == if initial == None then [Call(o, began)]
                       else Aborted(old(replacing)) + [CallWith(o, initial.value.0, initial.value.1, version)]
    {
      hide Inv, Tracks, Next, Enabled, Runs, Run;
      ghost var v := Now();
      if initial == None {
        JoinTracked(f, first, world, mine, v, o);
        ReadThenUpdate(o);
        steps := [Call(o, began)];
        OneStep(f, world, Call(o, began));
        world := Next(f, world, Call(o, began));
      } else {
        var (content, tag) := initial.value;
        steps := Aborted(replacing);
        AbortTracked(f, first, world, mine, v, o);
        ghost var s := Run(f, world, steps);
        StillEnabled(world, s, o, content, tag, version);
        CallTracked(f, first, s, mine, Free(v), o, content, tag, version);
        Update(o, content);
        RunMore(f, world, steps, CallWith(o, content, tag, version));
        steps := steps + [CallWith(o, content, tag, version)];
        world := Next(f, s, CallWith(o, content, tag, version));
      }
      mine := mine + {o};
    }

    /** The channel of the read closes: with a version that was current since it was opened, or because the file
        changed, in which case it is tried again, or with a problem. */
    method OnReadClose(end: ReadEnd, ghost k: nat) returns (ghost steps: seq<Step>)
      requires Valid() && reading
      requires end.ReadOk? ==>
        began <= k <= |world.log| < |world.history| && end.content == world.history[k] && end.tag == TagOf(world.history, k)
      requires end.ReadChanged? ==> began < |world.log|
      modifies this
      ensures Valid() && mine == old(mine)
      ensures Runs(f, old(world), steps) && world == Run(f, old(world), steps)
      ensures match end
        case ReadOk(content, tag) =>
          && !reading && waiting == [] && steps == Each(old(waiting), Delivers(k))
          && forall o | o in old(waiting) :: o in answers && answers[o] == ReadIs(content, tag)
        case ReadChanged =>
          reading && waiting == old(waiting) && began == |world.log| && steps == Each(old(waiting), Changes)
        case ReadProblem =>
          && !reading && waiting == [] && steps == Each(old(waiting), Fails)
          && forall o | o in old(waiting) :: o in answers && answers[o] == ReadFailed
    {
      match end
      case ReadOk(content, tag) =>
        steps := AnswerAll(ReadIs(content, tag), Delivers(k), k);
      case ReadChanged =>
        steps := ReadAgain();
      case ReadProblem =>
        steps := AnswerAll(ReadFailed, Fails, k);
    }

    /** Settle the promise of the read. */
    method AnswerAll(answer: Answer, ghost e: Ended, ghost k: nat) returns (ghost steps: seq<Step>)
      requires Valid() && reading
      requires
        || (answer == ReadFailed && e == Fails)
        || (began <= k <= |world.log| < |world.history| && e == Delivers(k)
            && answer == ReadIs(world.history[k], TagOf(world.history, k)))
      modifies this
      ensures Valid() && mine == old(mine) && !reading && waiting == []
      ensures Runs(f, old(world), steps) && world == Run(f, old(world), steps) && steps == Each(old(waiting), e)
      ensures forall o | o in old(waiting) :: o in answers && answers[o] == answer
    {
      hide Inv, Tracks, Next, Enabled, Runs, Run, CallOk;
      reading := false;
      ClosedTracked(world, mine, old(Now()));
      var all := waiting;
      steps := [];
      NoSteps(f, world);
      var i := 0;
      while i < |all|
        invariant 0 <= i <= |all| && waiting == all[i..] && !reading && mine == old(mine) && began == old(began)
        invariant Inv(f, first, world) && Tracks(world, mine, Now())
        invariant Runs(f, old(world), steps) && world == Run(f, old(world), steps)
        invariant steps == Each(all[..i], e) && world.log == old(world).log && world.history == old(world).history
        invariant forall j | 0 <= j < i :: all[j] in answers && answers[all[j]] == answer
      {
        AnswerNext(answer, e, k);
        RunMore(f, old(world), steps, e.StepOf(all[i]));
        EachMore(all, i, e);
        steps := steps + [e.StepOf(all[i])];
        i := i + 1;
      }
      assert all[..|all|] == all;
    }

    /** Answer the call that has waited longest. */
    method AnswerNext(answer: Answer, ghost e: Ended, ghost k: nat)
      requires Inv(f, first, world) && Tracks(world, mine, Now()) && !reading && waiting != []
      requires
        || (answer == ReadFailed && e == Fails)
        || (began <= k <= |world.log| < |world.history| && e == Delivers(k)
            && answer == ReadIs(world.history[k], TagOf(world.history, k)))
      modifies `waiting, `answers, `world
      ensures Inv(f, first, world) && Tracks(world, mine, Now())
      ensures waiting == old(waiting)[1..] && answers == old(answers)[old(waiting)[0] := answer]
      ensures Enabled(old(world), e.StepOf(old(waiting)[0])) && world == Next(f, old(world), e.StepOf(old(waiting)[0]))
      ensures world.log == old(world).log && world.history == old(world).history
    {
      hide Inv, Tracks, Next, Enabled;
      var o := waiting[0];
      AnswerTracked(f, first, world, mine, Now(), answer, e.StepOf(o), k);
      waiting, answers := waiting[1..], answers[o := answer];
      world := Next(f, world, e.StepOf(o));
    }

    /** Open the channel of the read again. */
    ghost method ReadAgain() returns (steps: seq<Step>)
      requires Valid() && reading && began < |world.log|
      modifies `world, `began
      ensures Valid() && began == |world.log| && steps == Each(waiting, Changes)
      ensures Runs(f, old(world), steps) && world == Run(f, old(world), steps)
    {
      hide Inv, Tracks, Next, Enabled, Runs, Run, CallOk;
      LaterTracked(world, mine, Now());
      WaitingSince(world, mine, Now());
      began := |world.log|;
      steps := [];
      NoSteps(f, world);
      var i := 0;
      while i < |waiting|
        invariant 0 <= i <= |waiting| && began == |world.log|
        invariant Valid() && Runs(f, old(world), steps) && world == Run(f, old(world), steps)
        invariant steps == Each(waiting[..i], Changes) && world.log == old(world).log
        invariant forall j | i <= j < |waiting| ::
          waiting[j] in world.ops && world.ops[waiting[j]].phase.Reading? && world.ops[waiting[j]].phase.since < |world.log|
      {
        ConflictTracked(f, first, world, mine, Now(), i);
        RunMore(f, old(world), steps, ReadConflict(waiting[i]));
        EachMore(waiting, i, Changes);
        steps := steps + [ReadConflict(waiting[i])];
        world := Next(f, world, ReadConflict(waiting[i]));
        i := i + 1;
      }
      assert waiting[..|waiting|] == waiting;
    }

    /** The channel of the replace closes, with what the server made of it or with a problem. */
    method OnReplaceClose(end: ReplaceEnd) returns (ghost steps: seq<Step>)
      requires Valid() && replacing.Some? && replacing.value in world.ops
      requires var p := world.ops[replacing.value].phase;
        match end
        case ReplaceOk(tag) => p.Committed? && tag == TagOf(world.history, p.version)
        case ReplaceChanged => p.Refused?
        case ReplaceProblem => true
      modifies `replacing, `answers, `world
      ensures Valid() && replacing == None
      ensures Runs(f, old(world), steps) && world == Run(f, old(world), steps)
      ensures steps == if end.ReplaceProblem? then [Fail(old(replacing).value)] else []
      ensures answers == old(answers)[old(replacing).value := AnswerTo(end)]
    {
      hide Inv, Tracks, Next, Enabled, Runs, Run;
      ghost var v := Now();
      var o := replacing.value;
      NoSteps(f, world);
      if end.ReplaceProblem? {
        AbortTracked(f, first, world, mine, v, o);
        steps := Aborted(replacing);
        world := Run(f, world, steps);
      } else {
        ServedTracked(world, mine, v, end);
        steps := [];
      }
      replacing, answers := None, answers[o := AnswerTo(end)];
    }

    /** A callback of a promise that was settled. */
    method CallBack(o: nat) returns (ghost steps: seq<Step>)
      requires Valid() && o in answers
      modifies this
      ensures Valid() && mine == old(mine)
      ensures Runs(f, old(world), steps) && world == Run(f, old(world), steps)
      ensures match old(answers)[o]
        case ReadIs(content, _) =>
          && steps == Aborted(old(replacing)) && settled == old(settled)
          && replacing == Some(o) && newContents == old(newContents)[o := NewContent(f, o, content)]
        case ReplacedAs(tag) =>
          steps == [Reply(o, 0)] && o in newContents && settled == old(settled)[o := Done(newContents[o], tag)]
        case Conflicted =>
          steps == [Reply(o, began)] && settled == old(settled) && reading && waiting == old(waiting) + [o]
        case _ =>
          steps == [] && settled == old(settled)[o := Problem]
    {
      hide Inv, Tracks, Next, Enabled, Runs, Run;
      ghost var v := Now();
      NoSteps(f, world);
      var answer := answers[o];
      match answer
      case ReadIs(content, _) =>
        steps := Aborted(replacing);
        AbortTracked(f, first, world, mine, v, o);
        world := Run(f, world, steps);
        AnsweredIsNotReplacing(old(world), mine, v, o);
        UpdateTracked(f, first, world, mine, Free(v), o);
        Update(o, content);
        answers := answers - {o};
      case ReplacedAs(tag) =>
        ResolveTracked(f, first, world, mine, v, o);
        OneStep(f, world, Reply(o, 0));
        steps := [Reply(o, 0)];
        world := Next(f, world, Reply(o, 0));
        settled, answers := settled[o := Done(newContents[o], tag)], answers - {o};
      case Conflicted =>
        RetryTracked(f, first, world, mine, v, o);
        answers := answers - {o};
        ReadThenUpdate(o);
        OneStep(f, world, Reply(o, began));
        steps := [Reply(o, began)];
        world := Next(f, world, Reply(o, began));
      case _ =>
        RejectTracked(world, mine, v, o);
        steps := [];
        settled, answers := settled[o := Problem], answers - {o};
    }
  }

  lemma HappensTracked(f: Callbacks, first: Content, s: State, mine: set<nat>, v: View, step: Step)
    requires Inv(f, first, s) && Tracks(s, mine, v) && Enabled(s, step)
    requires
      || step.Elsewhere? || step.o !in mine
      || ((step.ReplaceDone? || step.ReplaceConflict?) && v.replacing == Some(step.o))
    ensures Tracks(Next(f, s, step), mine, v)
  {
    hide Inv, Next, Enabled, CallOk;
    var n := Next(f, s, step);
    forall q | q in mine
      ensures CallOk(n, v, q)
    {
      CallIsThere(s, v, q);
      if step.Elsewhere? || step.o != q {
        OthersSame(f, first, s, step, q);
        SameIsOk(s, n, v, v, q);
      } else {
        ServedIsOk(f, first, s, v, step);
      }
    }
    FileGrows(f, s, step);
  }

  lemma FileGrows(f: Callbacks, s: State, step: Step)
    requires Enabled(s, step)
    ensures s.history <= Next(f, s, step).history && |s.log| <= |Next(f, s, step).log|
  {
    hide NewContent;
  }

  /** The server has carried out or refused the replace that is under way. */
  lemma ServedIsOk(f: Callbacks, first: Content, s: State, v: View, step: Step)
    requires Inv(f, first, s) && Enabled(s, step) && (step.ReplaceDone? || step.ReplaceConflict?)
    requires v.replacing == Some(step.o) && CallOk(s, v, step.o)
    ensures CallOk(Next(f, s, step), v, step.o)
  {
    hide NewContent, Inv;
  }

  function AnswerTo(end: ReplaceEnd): Answer {
    match end
    case ReplaceOk(tag) => ReplacedAs(tag)
    case ReplaceChanged => Conflicted
    case ReplaceProblem => ReplaceFailed
  }

  /** Without the replace, which has been aborted. */
  function Free(v: View): View {
    if v.replacing.Some? then v.(replacing := None, answers := v.answers[v.replacing.value := ReplaceFailed]) else v
  }

  function Joined(s: State, v: View, o: nat): View {
    v.(reading := true, waiting := v.waiting + [o], began := if v.reading then v.began else |s.log|, answers := v.answers - {o})
  }

  lemma NoSteps(f: Callbacks, s: State)
    ensures Runs(f, s, []) && Run(f, s, []) == s
  {
  }

  /** Without the read. */
  lemma ClosedTracked(s: State, mine: set<nat>, v: View)
    requires Tracks(s, mine, v)
    ensures Tracks(s, mine, v.(reading := false))
  {
    forall q | q in mine
      ensures CallOk(s, v.(reading := false), q)
    {
      assert CallOk(s, v, q);
    }
  }

  lemma OpenTracked(s: State, mine: set<nat>, v: View)
    requires Tracks(s, mine, v) && !v.reading
    ensures v.waiting == [] ==> Tracks(s, mine, v.(reading := true, began := |s.log|))
  {
    if v.waiting == [] {
      forall q | q in mine
        ensures CallOk(s, v.(reading := true, began := |s.log|), q)
      {
        assert CallOk(s, v, q);
      }
    }
  }

  lemma LaterTracked(s: State, mine: set<nat>, v: View)
    requires Tracks(s, mine, v) && v.reading
    ensures Tracks(s, mine, v.(began := |s.log|))
  {
    forall q | q in mine
      ensures CallOk(s, v.(began := |s.log|), q)
    {
      assert CallOk(s, v, q);
    }
  }

  lemma WaitingSince(s: State, mine: set<nat>, v: View)
    requires Tracks(s, mine, v)
    ensures forall j | 0 <= j < |v.waiting| ::
      v.waiting[j] in s.ops && s.ops[v.waiting[j]].phase.Reading? && s.ops[v.waiting[j]].phase.since <= v.began
  {
    forall j | 0 <= j < |v.waiting|
      ensures v.waiting[j] in s.ops && s.ops[v.waiting[j]].phase.Reading? && s.ops[v.waiting[j]].phase.since <= v.began
    {
      assert CallOk(s, v, v.waiting[j]);
    }
  }

  /** What each kind of step makes of the call itself. */
  lemma JoinTracked(f: Callbacks, first: Content, s: State, mine: set<nat>, v: View, o: nat)
    requires Inv(f, first, s) && Tracks(s, mine, v) && (v.waiting != [] ==> v.reading) && o !in s.ops
    ensures var v' := Joined(s, v, o);
      && v' == v.(reading := true, waiting := v.waiting + [o], began := v'.began)
      && var step := Call(o, v'.began);
         Enabled(s, step) && Inv(f, first, Next(f, s, step)) && Tracks(Next(f, s, step), mine + {o}, v')
  {
    hide Inv, Next, CallOk;
    NotMine(s, mine, v, o);
    var v' := Joined(s, v, o);
    var step := Call(o, v'.began);
    StepInv(f, first, s, step);
    OthersTracked(f, first, s, step, mine, v, v');
    CallJoins(f, s, v, o);
  }

  lemma CallJoins(f: Callbacks, s: State, v: View, o: nat)
    requires o !in s.ops && o !in v.answers && o !in v.settled && v.replacing != Some(o) && (v.reading ==> v.began <= |s.log|)
    ensures var v' := Joined(s, v, o);
      var n := Next(f, s, Call(o, v'.began));
      n.log == s.log && n.history == s.history && CallOk(n, v', o)
  {
  }

  lemma NotMine(s: State, mine: set<nat>, v: View, o: nat)
    requires Tracks(s, mine, v) && o !in s.ops
    ensures o !in mine && o !in v.waiting && o !in v.answers && o !in v.settled && v.replacing != Some(o)
    ensures v.answers - {o} == v.answers
  {
    assert o in mine ==> CallOk(s, v, o);
  }

  lemma AbortTracked(f: Callbacks, first: Content, s: State, mine: set<nat>, v: View, o: nat)
    requires Inv(f, first, s) && Tracks(s, mine, v)
    ensures var steps := Aborted(v.replacing);
      var n := Run(f, s, steps);
      && Runs(f, s, steps) && Inv(f, first, n) && Tracks(n, mine, Free(v))
      && n.history == s.history && n.log == s.log && (o !in s.ops ==> o !in n.ops)
  {
    hide Inv, Next, Runs, Run;
    NoSteps(f, s);
    if v.replacing.Some? {
      var other := v.replacing.value;
      hide CallOk;
      FailIsOk(f, s, v, other);
      StepInv(f, first, s, Fail(other));
      OthersTracked(f, first, s, Fail(other), mine, v, Free(v));
      OneStep(f, s, Fail(other));
    }
  }

  lemma StillEnabled(s: State, n: State, o: nat, content: Content, tag: Option<Tag>, version: Option<nat>)
    requires Enabled(s, CallWith(o, content, tag, version)) && n.history == s.history && o !in n.ops
    ensures Enabled(n, CallWith(o, content, tag, version))
  {
  }

  lemma AnsweredIsNotReplacing(s: State, mine: set<nat>, v: View, o: nat)
    requires Tracks(s, mine, v) && o in v.answers
    ensures v.replacing != Some(o)
  {
    assert CallOk(s, v, o);
  }

  lemma FailIsOk(f: Callbacks, s: State, v: View, o: nat)
    requires CallOk(s, v, o) && v.replacing == Some(o)
    ensures Enabled(s, Fail(o)) && CallOk(Next(f, s, Fail(o)), Free(v), o)
    ensures var n := Next(f, s, Fail(o)); n.history == s.history && n.log == s.log && n.ops.Keys == s.ops.Keys
  {
  }

  lemma CallTracked(f: Callbacks, first: Content, s: State, mine: set<nat>, v: View, o: nat, content: Content, tag: Option<Tag>,
                    version: Option<nat>)
    requires Inv(f, first, s) && Tracks(s, mine, v) && v.replacing == None && Enabled(s, CallWith(o, content, tag, version))
    ensures var step := CallWith(o, content, tag, version);
      var v' := v.(replacing := Some(o), newContents := v.newContents[o := NewContent(f, o, content)]);
      Inv(f, first, Next(f, s, step)) && Tracks(Next(f, s, step), mine + {o}, v')
  {
    hide Inv, Next, CallOk, NewContent;
    var step := CallWith(o, content, tag, version);
    var v' := v.(replacing := Some(o), newContents := v.newContents[o := NewContent(f, o, content)]);
    NotMine(s, mine, v, o);
    StepInv(f, first, s, step);
    OthersTracked(f, first, s, step, mine, v, v');
    CallReplaces(f, s, v, o, content, tag, version);
  }

  lemma CallReplaces(f: Callbacks, s: State, v: View, o: nat, content: Content, tag: Option<Tag>, version: Option<nat>)
    requires o !in s.ops && o !in v.answers && o !in v.settled && o !in v.waiting
    ensures var v' := v.(replacing := Some(o), newContents := v.newContents[o := NewContent(f, o, content)]);
      var n := Next(f, s, CallWith(o, content, tag, version));
      n.log == s.log && n.history == s.history && CallOk(n, v', o)
  {
    hide NewContent;
  }

  lemma AnswerTracked(f: Callbacks, first: Content, s: State, mine: set<nat>, v: View, answer: Answer, step: Step, k: nat)
    requires Inv(f, first, s) && Tracks(s, mine, v) && !v.reading && v.waiting != []
    requires
      || (answer == ReadFailed && step == Fail(v.waiting[0]))
      || (v.began <= k <= |s.log| < |s.history| && step == ReadDone(v.waiting[0], k)
          && answer == ReadIs(s.history[k], TagOf(s.history, k)))
    ensures var v' := v.(waiting := v.waiting[1..], answers := v.answers[v.waiting[0] := answer]);
      var n := Next(f, s, step);
      && Enabled(s, step) && Inv(f, first, n) && Tracks(n, mine, v')
      && n.log == s.log && n.history == s.history
  {
    hide Inv, Next, CallOk, Enabled;
    var o := v.waiting[0];
    var v' := v.(waiting := v.waiting[1..], answers := v.answers[o := answer]);
    assert forall q | q != o :: q in v.waiting <==> q in v'.waiting;
    AnswerIsOk(f, s, v, answer, step, k);
    StepInv(f, first, s, step);
    OthersTracked(f, first, s, step, mine, v, v');
  }

  lemma AnswerIsOk(f: Callbacks, s: State, v: View, answer: Answer, step: Step, k: nat)
    requires v.waiting != [] && CallOk(s, v, v.waiting[0]) && !v.reading && v.waiting[0] !in v.waiting[1..]
    requires
      || (answer == ReadFailed && step == Fail(v.waiting[0]))
      || (v.began <= k <= |s.log| < |s.history| && step == ReadDone(v.waiting[0], k)
          && answer == ReadIs(s.history[k], TagOf(s.history, k)))
    ensures var v' := v.(waiting := v.waiting[1..], answers := v.answers[v.waiting[0] := answer]);
      var n := Next(f, s, step);
      Enabled(s, step) && CallOk(n, v', v.waiting[0]) && n.log == s.log && n.history == s.history
  {
    hide NewContent;
  }

  lemma ConflictTracked(f: Callbacks, first: Content, s: State, mine: set<nat>, v: View, i: nat)
    requires Inv(f, first, s) && Tracks(s, mine, v) && v.began == |s.log| && i < |v.waiting|
    requires forall j | i <= j < |v.waiting| ::
      v.waiting[j] in s.ops && s.ops[v.waiting[j]].phase.Reading? && s.ops[v.waiting[j]].phase.since < |s.log|
    ensures var step := ReadConflict(v.waiting[i]);
      var n := Next(f, s, step);
      && Enabled(s, step) && Inv(f, first, n) && Tracks(n, mine, v) && n.log == s.log
      && forall j | i < j < |v.waiting| ::
           v.waiting[j] in n.ops && n.ops[v.waiting[j]].phase.Reading? && n.ops[v.waiting[j]].phase.since < |n.log|
  {
    hide Inv, Next, CallOk;
    var step := ReadConflict(v.waiting[i]);
    ConflictIsOk(f, s, v, v.waiting[i]);
    StepInv(f, first, s, step);
    OthersTracked(f, first, s, step, mine, v, v);
    forall j | i < j < |v.waiting|
      ensures var n := Next(f, s, step); v.waiting[j] in n.ops && n.ops[v.waiting[j]] == s.ops[v.waiting[j]]
    {
      OthersSame(f, first, s, step, v.waiting[j]);
    }
  }

  lemma ConflictIsOk(f: Callbacks, s: State, v: View, o: nat)
    requires CallOk(s, v, o) && o in v.waiting && v.began == |s.log| && s.ops[o].phase.since < |s.log|
    ensures var n := Next(f, s, ReadConflict(o));
      CallOk(n, v, o) && n.log == s.log && n.history == s.history
  {
  }

  lemma ServedTracked(s: State, mine: set<nat>, v: View, end: ReplaceEnd)
    requires Tracks(s, mine, v) && v.replacing.Some? && v.replacing.value in s.ops && !end.ReplaceProblem?
    requires var p := s.ops[v.replacing.value].phase;
      if end.ReplaceOk? then p.Committed? && end.tag == TagOf(s.history, p.version) else p.Refused?
    ensures Tracks(s, mine, v.(replacing := None, answers := v.answers[v.replacing.value := AnswerTo(end)]))
  {
    var v' := v.(replacing := None, answers := v.answers[v.replacing.value := AnswerTo(end)]);
    forall q | q in mine
      ensures CallOk(s, v', q)
    {
      assert CallOk(s, v, q);
    }
  }

  lemma UpdateTracked(f: Callbacks, first: Content, s: State, mine: set<nat>, v: View, o: nat)
    requires Inv(f, first, s) && Tracks(s, mine, v) && v.replacing == None && o in v.answers && v.answers[o].ReadIs?
    ensures Tracks(s, mine, v.(replacing := Some(o), answers := v.answers - {o},
                               newContents := v.newContents[o := NewContent(f, o, v.answers[o].content)]))
  {
    hide NewContent;
    var v' := v.(replacing := Some(o), answers := v.answers - {o},
                 newContents := v.newContents[o := NewContent(f, o, v.answers[o].content)]);
    forall q | q in mine
      ensures CallOk(s, v', q)
    {
      assert CallOk(s, v, q);
      assert OpOk(f, s, q, s.ops[q]);
    }
  }

  lemma ResolveTracked(f: Callbacks, first: Content, s: State, mine: set<nat>, v: View, o: nat)
    requires Inv(f, first, s) && Tracks(s, mine, v) && o in v.answers && v.answers[o].ReplacedAs?
    ensures o in v.newContents && Enabled(s, Reply(o, 0))
    ensures var v' := v.(settled := v.settled[o := Done(v.newContents[o], v.answers[o].tag)], answers := v.answers - {o});
      var n := Next(f, s, Reply(o, 0));
      Inv(f, first, n) && Tracks(n, mine, v')
  {
    hide Inv, Next, CallOk, Enabled;
    ResolveIsOk(f, s, v, o);
    var v' := v.(settled := v.settled[o := Done(v.newContents[o], v.answers[o].tag)], answers := v.answers - {o});
    StepInv(f, first, s, Reply(o, 0));
    OthersTracked(f, first, s, Reply(o, 0), mine, v, v');
  }

  lemma ResolveIsOk(f: Callbacks, s: State, v: View, o: nat)
    requires CallOk(s, v, o) && o in v.answers && v.answers[o].ReplacedAs?
    ensures o in v.newContents && Enabled(s, Reply(o, 0))
    ensures var v' := v.(settled := v.settled[o := Done(v.newContents[o], v.answers[o].tag)], answers := v.answers - {o});
      var n := Next(f, s, Reply(o, 0));
      CallOk(n, v', o) && n.log == s.log && n.history == s.history
  {
  }

  lemma RetryTracked(f: Callbacks, first: Content, s: State, mine: set<nat>, v: View, o: nat)
    requires Inv(f, first, s) && Tracks(s, mine, v) && (v.waiting != [] ==> v.reading)
    requires o in v.answers && v.answers[o] == Conflicted
    ensures var v' := Joined(s, v, o);
      var step := Reply(o, v'.began);
      Enabled(s, step) && Inv(f, first, Next(f, s, step)) && Tracks(Next(f, s, step), mine, v')
  {
    hide Inv, Next, CallOk, Enabled;
    var v' := Joined(s, v, o);
    RetryIsOk(f, s, v, o);
    StepInv(f, first, s, Reply(o, v'.began));
    OthersTracked(f, first, s, Reply(o, v'.began), mine, v, v');
  }

  /** The read that is joined was opened after the call's last one was done. */
  lemma RetryIsOk(f: Callbacks, s: State, v: View, o: nat)
    requires CallOk(s, v, o) && o in v.answers && v.answers[o] == Conflicted && (v.reading ==> v.began <= |s.log|)
    ensures var v' := Joined(s, v, o);
      var n := Next(f, s, Reply(o, v'.began));
      && Enabled(s, Reply(o, v'.began)) && o !in v.waiting
      && CallOk(n, v', o) && n.log == s.log && n.history == s.history
  {
  }

  lemma RejectTracked(s: State, mine: set<nat>, v: View, o: nat)
    requires Tracks(s, mine, v) && o in v.answers && (v.answers[o] == ReadFailed || v.answers[o] == ReplaceFailed)
    ensures Tracks(s, mine, v.(settled := v.settled[o := Problem], answers := v.answers - {o}))
  {
    var v' := v.(settled := v.settled[o := Problem], answers := v.answers - {o});
    forall q | q in mine
      ensures CallOk(s, v', q)
    {
      assert CallOk(s, v, q);
    }
  }

  /** What a call's promise is resolved with is the content and the tag of a version that the call made; and if it
      was told a real version to work on, that is its callback's answer to the content just before. */
  lemma ResolvedIsMade(h: FileHandle, o: nat)
    requires h.Valid() && o in h.settled && h.settled[o].Done?
    ensures var s := h.world;
      && o in s.ops && s.ops[o].phase.Resolved?
      && var v := s.ops[o].phase.version;
         && 0 < v <= |s.log| < |s.history| && By(s.log[v - 1], o)
         && h.settled[o] == Done(s.history[v], TagOf(s.history, v))
         && (s.ops[o].vouched ==> s.history[v] == NewContent(h.f, o, s.history[v - 1]))
  {
    hide NewContent;
    var s := h.world;
    assert CallOk(s, h.Now(), o);
    assert OpOk(h.f, s, o, s.ops[o]);
    var v := s.ops[o].phase.version;
    VersionIs(h.f, h.first, s, v);
  }

  lemma VersionIs(f: Callbacks, first: Content, s: State, v: nat)
    requires Inv(f, first, s) && 0 < v <= |s.log|
    ensures |s.history| == |s.log| + 1 && s.history[v] == Written(f, s.log[v - 1], s.history[v - 1])
  {
    hide NewContent;
    assert s.history[v] == Replay(f, first, s.log[..v]) && s.history[v - 1] == Replay(f, first, s.log[..v - 1]);
    assert s.log[..v][..v - 1] == s.log[..v - 1];
  }
}
