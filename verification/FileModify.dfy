/** The optimistic concurrency of `cockpit.file`: any number of `modify` calls and outside writers on
    one file whose versions carry tags. A state machine over the messages between them.

    About the server this assumes what the tests of the file API show: a read delivers the content and
    the tag of some version that was current while it was open, a replace with a tag is carried out in
    one step if that tag is still the file's and refused otherwise, a missing file has the tag "-" and
    every other version has a tag of its own. A read is only refused for a conflict if a version was made
    since it was opened.

    About the handle it assumes what `FileHandles` shows: when a refused replace is tried again the read that is
    joined was opened after the call's last one was done, as a handle has one read at a time. The bounds on
    conflicts rest on both. */
module FileModify {
  import opened Options

  /** Absent stands for null, a file that is not there. */
  datatype Content = Absent | Text(text: string)

  /** What a callback returns; undefined keeps the content it was given. */
  datatype Update = Keep | Write(content: Content)

  datatype Tag = Dash | Version(number: nat)

  /** Who made a version: a `modify` call that was told a real version to work on, one that was not, or
      somebody else. */
  datatype Writer =
    | Modified(op: nat)
    | Blind(op: nat, content: Content)
    | Outside(content: Content)

  datatype Phase =
    | Reading(since: nat)                   // opened when there were `since` versions after the first
    | Replacing(base: Content, content: Content, expected: Option<Tag>, at: Option<nat>)
    | Refused
    | Committed(content: Content, version: nat)
    | Resolved(content: Content, tag: Tag, version: nat)
    | Rejected

  /** A `modify` call. Ghostly companions of the code's variables: `born`, the version current when its first read
      was opened or it was called with a content, whichever is earlier; `seen`, the version current when its
      last read was done; `low`, a version at or before the one it works on; `charged`, the version current
      at its last conflict; how many retries joined a read that was older than the newest version then; the
      number of its change conflicts and of its steps. */
  datatype Op = Op(phase: Phase, withContent: bool, vouched: bool, born: nat, seen: nat, low: nat, charged: nat, joined: nat,
                   conflicts: nat, moves: nat)

  /** All versions of the file so far, who made each after the first, and the calls. */
  datatype State = State(history: seq<Content>, log: seq<Writer>, ops: map<nat, Op>)

  type Callbacks = (nat, Content) -> Update

  function NewContent(f: Callbacks, o: nat, c: Content): Content {
    match f(o, c)
    case Keep => c
    case Write(c') => c'
  }

  function TagOf(history: seq<Content>, k: nat): Tag {
    if k < |history| && history[k] != Absent then Version(k) else Dash
  }

  /** `c` and `tag` are what version `k` has. */
  predicate Names(history: seq<Content>, c: Content, tag: Option<Tag>, k: nat) {
    k < |history| && history[k] == c && tag == Some(TagOf(history, k))
  }

  function Init(c: Content): State { State([c], [], map[]) }

  function CurrentTag(s: State): Tag { TagOf(s.history, |s.log|) }

  // ----- Steps

  datatype Step =
    | Call(o: nat, since: nat)          // modify(callback); it may join a read that is under way
    | CallWith(o: nat, content: Content, tag: Option<Tag>, version: Option<nat>)
    | ReadDone(o: nat, at: nat)
    | ReadConflict(o: nat)
    | ReplaceDone(o: nat)
    | ReplaceConflict(o: nat)
    | Reply(o: nat, since: nat)         // a retry opens a read, or joins one that is under way
    | Fail(o: nat)
    | Elsewhere(content: Content)

  ghost predicate Enabled(s: State, step: Step) {
    match step
    case Call(o, since) => o !in s.ops && since <= |s.log|
    case CallWith(o, c, tag, version) =>
      o !in s.ops
      && if version.Some? then Names(s.history, c, tag, version.value)
         else forall k: nat :: !Names(s.history, c, tag, k)
    case Elsewhere(_) => true
    case _ => step.o in s.ops && EnabledFor(s, step, s.ops[step.o].phase)
  }

  predicate EnabledFor(s: State, step: Step, p: Phase)
    requires !step.Elsewhere? && step.o in s.ops
  {
    match step
    case ReadDone(_, k) => p.Reading? && p.since <= k <= |s.log| < |s.history|
    case ReadConflict(_) => p.Reading? && p.since < |s.log|
    case ReplaceDone(_) => p.Replacing? && (p.expected == None || p.expected == Some(CurrentTag(s)))
    case ReplaceConflict(_) => p.Replacing? && p.expected != None && p.expected != Some(CurrentTag(s))
    case Reply(_, since) => p.Committed? || (p.Refused? && s.ops[step.o].seen <= since <= |s.log|)
    case Fail(_) => !p.Resolved? && !p.Rejected?
    case _ => false
  }

  /** A version more, by replacing the file here or elsewhere. */
  function Append(s: State, c: Content, w: Writer): State {
    s.(history := s.history + [c], log := s.log + [w])
  }

  function Goto(op: Op, phase: Phase): Op {
    op.(phase := phase, moves := op.moves + 1)
  }

  function Conflict(op: Op, phase: Phase, low: nat, now: nat): Op {
    op.(phase := phase, moves := op.moves + 1, conflicts := op.conflicts + 1, low := low, charged := now)
  }

  /** Read again, perhaps with a read that was opened before the call. */
  function Retry(op: Op, since: nat, now: nat): Op {
    op.(phase := Reading(since), moves := op.moves + 1, born := if since < op.born then since else op.born, low := since,
        joined := op.joined + if since < now then 1 else 0)
  }

  function Next(f: Callbacks, s: State, step: Step): State {
    match step
    case Call(o, since) =>
      s.(ops := s.ops[o := Op(Reading(since), false, true, since, 0, since, since, 0, 0, 1)])
    case CallWith(o, c, tag, version) =>
      s.(ops := s.ops[o := Op(Replacing(c, NewContent(f, o, c), tag, version), true, version.Some?, |s.log|, 0, |s.log|, |s.log|,
                              0, 0, 1)])
    case Elsewhere(c) => Append(s, c, Outside(c))
    case _ => if step.o in s.ops then NextOf(f, s, step, s.ops[step.o]) else s
  }

  /** A step of one call. */
  function NextOf(f: Callbacks, s: State, step: Step, op: Op): State
    requires !step.Elsewhere?
  {
    var o, p := step.o, op.phase;
    match step
    case ReadDone(_, k) =>
      if k < |s.history| then
        var c := s.history[k];
        s.(ops := s.ops[o := Goto(op, Replacing(c, NewContent(f, o, c), Some(TagOf(s.history, k)), Some(k)))
                             .(vouched := true, low := k, seen := |s.log|)])
      else s
    case ReadConflict(_) => s.(ops := s.ops[o := Conflict(op, Reading(|s.log|), |s.log|, |s.log|)])
    case ReplaceDone(_) =>
      if p.Replacing? then
        var w := if p.at.Some? then Modified(o) else Blind(o, p.content);
        Append(s, p.content, w).(ops := s.ops[o := Goto(op, Committed(p.content, |s.log| + 1))])
      else s
    case ReplaceConflict(_) =>
      s.(ops := s.ops[o := Conflict(op, Refused, if op.low < op.seen then op.seen else op.low, |s.log|)])
    case Reply(_, since) =>
      s.(ops := s.ops[o := if p.Committed? then Goto(op, Resolved(p.content, TagOf(s.history, p.version), p.version))
                           else Retry(op, since, |s.log|)])
    case Fail(_) => s.(ops := s.ops[o := Goto(op, Rejected)])
    case _ => s
  }

  ghost predicate Runs(f: Callbacks, s: State, steps: seq<Step>)
    decreases |steps|
  {
    steps == [] || (Enabled(s, steps[0]) && Runs(f, Next(f, s, steps[0]), steps[1..]))
  }

  ghost function Run(f: Callbacks, s: State, steps: seq<Step>): State
    decreases |steps|
  {
    if steps == [] then s else Run(f, Next(f, s, steps[0]), steps[1..])
  }

  // ----- What the content has to be

  /** The content after the logged writers, each callback applied to what its predecessors left. */
  function Replay(f: Callbacks, c: Content, log: seq<Writer>): Content {
    if log == [] then c
    else
      var before := Replay(f, c, log[..|log| - 1]);
      Written(f, log[|log| - 1], before)
  }

  function Written(f: Callbacks, w: Writer, before: Content): Content {
    match w
    case Modified(o) => NewContent(f, o, before)
    case Blind(_, c) => c
    case Outside(c) => c
  }

  // ----- Invariant

  predicate By(w: Writer, o: nat) {
    w == Modified(o) || (w.Blind? && w.op == o)
  }

  predicate Pending(p: Phase) {
    p.Reading? || p.Replacing? || p.Refused?
  }

  /** What is known about one call, from the file's history alone. */
  ghost predicate OpOk(f: Callbacks, s: State, o: nat, op: Op) {
    match op.phase
    case Reading(since) => true
    case Replacing(base, content, expected, at) =>
      && content == NewContent(f, o, base)
      && (at.Some? <==> op.vouched)
      && (at.Some? ==> Names(s.history, base, expected, at.value))
    case Refused => true
    case Committed(content, v) => Made(s, o, op, content, v)
    case Resolved(content, tag, v) => Made(s, o, op, content, v) && tag == TagOf(s.history, v)
    case Rejected => true
  }

  /** Version `v` is the one that call `o` made. */
  ghost predicate Made(s: State, o: nat, op: Op, content: Content, v: nat) {
    && 0 < v <= |s.log| && v < |s.history| && s.history[v] == content
    && By(s.log[v - 1], o)
    && (op.vouched ==> s.log[v - 1] == Modified(o))
  }

  /** A call makes at most one version, after which it is no longer pending. */
  ghost predicate Once(s: State) {
    && (forall i, o: nat | 0 <= i < |s.log| && By(s.log[i], o) :: o in s.ops && !Pending(s.ops[o].phase))
    && (forall i, j, o: nat | 0 <= i < j < |s.log| && By(s.log[i], o) :: !By(s.log[j], o))
  }

  ghost predicate Replayed(f: Callbacks, c: Content, s: State) {
    && |s.history| == |s.log| + 1
    && forall k | 0 <= k <= |s.log| :: s.history[k] == Replay(f, c, s.log[..k])
  }

  ghost predicate Inv(f: Callbacks, c: Content, s: State) {
    && Replayed(f, c, s)
    && (forall o | o in s.ops :: OpOk(f, s, o, s.ops[o]))
    && Once(s)
  }

  /** Equal tags, equal contents: what makes comparing tags enough. */
  lemma TagNamesContent(history: seq<Content>, i: nat, j: nat)
    requires i < |history| && j < |history| && TagOf(history, i) == TagOf(history, j)
    ensures history[i] == history[j]
  {
  }

  lemma AppendReplayed(f: Callbacks, c: Content, s: State, c': Content, w: Writer)
    requires Replayed(f, c, s) && c' == Written(f, w, s.history[|s.log|])
    ensures Replayed(f, c, Append(s, c', w))
  {
    var s' := Append(s, c', w);
    forall k | 0 <= k <= |s'.log| ensures s'.history[k] == Replay(f, c, s'.log[..k]) {
      if k <= |s.log| {
        assert s'.log[..k] == s.log[..k];
      } else {
        assert s'.log[..k] == s'.log && s'.log[..|s.log|] == s.log[..|s.log|];
      }
    }
  }

  lemma AppendOk(f: Callbacks, s: State, o: nat, op: Op, c: Content, w: Writer)
    requires |s.history| == |s.log| + 1 && OpOk(f, s, o, op)
    ensures OpOk(f, Append(s, c, w), o, op)
  {
  }

  /** A replace that goes through writes what its writer means. */
  lemma ReplaceWrites(f: Callbacks, s: State, o: nat, op: Op)
    requires |s.history| == |s.log| + 1 && OpOk(f, s, o, op) && o in s.ops && EnabledFor(s, ReplaceDone(o), op.phase)
    ensures var p := op.phase;
      p.content == Written(f, if p.at.Some? then Modified(o) else Blind(o, p.content), s.history[|s.log|])
  {
    var p := op.phase;
    if p.at.Some? {
      TagNamesContent(s.history, p.at.value, |s.log|);
    }
  }

  lemma FileStep(f: Callbacks, c: Content, s: State, step: Step)
    requires Inv(f, c, s) && Enabled(s, step) && !step.Elsewhere?
    ensures Replayed(f, c, Next(f, s, step))
  {
    hide NewContent, Once;
    if step.ReplaceDone? {
      var p := s.ops[step.o].phase;
      var w := if p.at.Some? then Modified(step.o) else Blind(step.o, p.content);
      Lengths(f, c, s);
      ReplaceWrites(f, s, step.o, s.ops[step.o]);
      AppendReplayed(f, c, s, p.content, w);
      SameFile(f, c, Append(s, p.content, w), Next(f, s, step));
    } else {
      SameFile(f, c, s, Next(f, s, step));
    }
  }

  lemma OwnStep(f: Callbacks, s: State, step: Step)
    requires |s.history| == |s.log| + 1 && Enabled(s, step) && !step.Elsewhere?
    requires step.o in s.ops ==> OpOk(f, s, step.o, s.ops[step.o])
    ensures step.o in Next(f, s, step).ops
    ensures OpOk(f, Next(f, s, step), step.o, Next(f, s, step).ops[step.o])
  {
    hide NewContent;
  }

  /** A step of one call does not show in another. */
  lemma OtherStep(f: Callbacks, s: State, step: Step, q: nat)
    requires |s.history| == |s.log| + 1 && Enabled(s, step) && !step.Elsewhere? && q != step.o
    requires q in s.ops ==> OpOk(f, s, q, s.ops[q])
    ensures q in Next(f, s, step).ops <==> q in s.ops
    ensures q in s.ops ==> Next(f, s, step).ops[q] == s.ops[q] && OpOk(f, Next(f, s, step), q, s.ops[q])
  {
    hide NewContent;
  }

  lemma OnceStep(f: Callbacks, s: State, step: Step)
    requires Once(s) && Enabled(s, step) && !step.Elsewhere?
    ensures Once(Next(f, s, step))
  {
    hide NewContent;
  }

  /** One step of one call keeps everything. */
  lemma OpStepInv(f: Callbacks, c: Content, s: State, step: Step)
    requires Inv(f, c, s) && Enabled(s, step) && !step.Elsewhere?
    ensures Inv(f, c, Next(f, s, step))
  {
    hide Replayed, OpOk, Once, Next, Enabled;
    Lengths(f, c, s);
    FileStep(f, c, s, step);
    OwnStep(f, s, step);
    forall q: nat ensures q in Next(f, s, step).ops ==> OpOk(f, Next(f, s, step), q, Next(f, s, step).ops[q]) {
      if q != step.o {
        OtherStep(f, s, step, q);
      }
    }
    OnceStep(f, s, step);
  }

  lemma Lengths(f: Callbacks, c: Content, s: State)
    requires Replayed(f, c, s)
    ensures |s.history| == |s.log| + 1
  {
  }

  lemma SameFile(f: Callbacks, c: Content, s: State, s': State)
    requires Replayed(f, c, s) && s'.history == s.history && s'.log == s.log
    ensures Replayed(f, c, s')
  {
  }

  lemma StepInv(f: Callbacks, c: Content, s: State, step: Step)
    requires Inv(f, c, s) && Enabled(s, step)
    ensures Inv(f, c, Next(f, s, step))
  {
    if step.Elsewhere? {
      AppendReplayed(f, c, s, step.content, Outside(step.content));
      forall o | o in s.ops ensures OpOk(f, Next(f, s, step), o, s.ops[o]) {
        AppendOk(f, s, o, s.ops[o], step.content, Outside(step.content));
      }
    } else {
      OpStepInv(f, c, s, step);
    }
  }

  lemma {:induction false} RunInv(f: Callbacks, c: Content, s: State, steps: seq<Step>)
    requires Inv(f, c, s) && Runs(f, s, steps)
    ensures Inv(f, c, Run(f, s, steps))
    decreases |steps|
  {
    if steps != [] {
      StepInv(f, c, s, steps[0]);
      RunInv(f, c, Next(f, s, steps[0]), steps[1..]);
    }
  }

  /** In every run: each version is its writer's doing on exactly the version before, and a call that
      resolved made exactly one version. If it was told a real version to work on, that is its callback's
      answer to the content just before it. */
  lemma NoLostUpdate(f: Callbacks, c: Content, steps: seq<Step>)
    requires Runs(f, Init(c), steps)
    ensures var s := Run(f, Init(c), steps);
      && |s.history| == |s.log| + 1
      && (forall k | 0 <= k <= |s.log| :: s.history[k] == Replay(f, c, s.log[..k]))
      && (forall k | 0 <= k < |s.log| :: s.history[k + 1] == Written(f, s.log[k], s.history[k]))
      && (forall o | o in s.ops && s.ops[o].phase.Resolved? ::
            var v := s.ops[o].phase.version;
            && 0 < v <= |s.log|
            && s.ops[o].phase.content == s.history[v] && s.ops[o].phase.tag == TagOf(s.history, v)
            && (forall k | 0 <= k < |s.log| :: By(s.log[k], o) <==> k == v - 1)
            && (s.ops[o].vouched ==> s.history[v] == NewContent(f, o, s.history[v - 1])))
  {
    var s := Run(f, Init(c), steps);
    assert Inv(f, c, Init(c));
    RunInv(f, c, Init(c), steps);
    forall k | 0 <= k < |s.log| ensures s.history[k + 1] == Written(f, s.log[k], s.history[k]) {
      assert s.log[..k + 1][..k] == s.log[..k];
    }
  }

  /** Without a tag nothing is checked: a version made in between is overwritten unseen. */
  lemma NoTagLosesUpdate() returns (f: Callbacks, c: Content, steps: seq<Step>)
    ensures Runs(f, Init(c), steps)
    ensures var s := Run(f, Init(c), steps);
      && |s.log| == 2 && |s.history| == 3
      && s.log[1] == Blind(0, s.history[2])
      && s.history[2] != NewContent(f, 0, s.history[1])
  {
    f := (o: nat, c: Content) => if c == Text("a") then Write(Text("a!")) else Write(Text("b!"));
    c := Text("a");
    var call, other, done := CallWith(0, Text("a"), None, None), Elsewhere(Text("b")), ReplaceDone(0);
    steps := [call, other, done];
    var s0 := Init(c);
    var s1 := Next(f, s0, call);
    var s2 := Next(f, s1, other);
    var s3 := Next(f, s2, done);
    assert Enabled(s0, call) && Enabled(s1, other) && Enabled(s2, done);
    assert steps[1..] == [other, done] && [other, done][1..] == [done] && [done][1..] == [];
    assert Runs(f, s3, []) && Run(f, s3, []) == s3;
    assert Runs(f, s2, [done]) && Run(f, s2, [done]) == s3;
    assert Runs(f, s1, [other, done]) && Run(f, s1, [other, done]) == s3;
    assert s3.log == [Outside(Text("b")), Blind(0, Text("a!"))];
    assert s3.history == [Text("a"), Text("b"), Text("a!")];
  }

  // ----- Contents without a version

  /** The contents that a replace with this tag can still find, of the versions from now on. */
  ghost predicate MayReplace(s: State, tag: Option<Tag>, other: Content) {
    match tag
    case None => true
    case Some(Dash) => other == Absent
    case Some(Version(k)) =>
      other != Absent && (k > |s.log| || (k == |s.log| < |s.history| && other == s.history[k]))
  }

  /** If call `o` resolved, its version is its callback's answer to the content just before it. */
  ghost predicate Keeps(f: Callbacks, s: State, o: nat) {
    o in s.ops && s.ops[o].phase.Resolved? ==>
      var v := s.ops[o].phase.version;
      0 < v < |s.history| && s.history[v] == NewContent(f, o, s.history[v - 1])
  }

  ghost predicate KeepsAlways(f: Callbacks, s: State, o: nat) {
    forall more | Runs(f, s, more) :: Keeps(f, Run(f, s, more), o)
  }

  /** The callback makes the same of every content that can be found as of the one it was given. */
  ghost predicate Indifferent(f: Callbacks, s: State, o: nat, c: Content, tag: Option<Tag>) {
    forall other | MayReplace(s, tag, other) :: NewContent(f, o, other) == NewContent(f, o, c)
  }

  /** What a call with content `c` and no version of it has come to, since state `s0`. */
  ghost predicate Unread(f: Callbacks, s0: State, s: State, o: nat, c: Content, tag: Option<Tag>) {
    && |s.history| == |s.log| + 1 && |s0.history| == |s0.log| + 1 && s0.history <= s.history
    && o in s.ops
    && match s.ops[o].phase
       case Replacing(base, content, expected, at) =>
         && content == NewContent(f, o, base)
         && if at.Some? then Names(s.history, base, expected, at.value) else base == c && expected == tag
       case Committed(content, v) => 0 < v < |s.history| && s.history[v] == NewContent(f, o, s.history[v - 1])
       case Resolved(content, _, v) => 0 < v < |s.history| && s.history[v] == NewContent(f, o, s.history[v - 1])
       case _ => true
  }

  /** What the replace finds is what its tag names, or one of the contents it may find. */
  lemma ReplaceFinds(f: Callbacks, s0: State, s: State, o: nat, c: Content, tag: Option<Tag>)
    requires Unread(f, s0, s, o, c, tag) && Indifferent(f, s0, o, c, tag)
    requires EnabledFor(s, ReplaceDone(o), s.ops[o].phase)
    ensures s.ops[o].phase.content == NewContent(f, o, s.history[|s.log|])
  {
    var p := s.ops[o].phase;
    if p.at.Some? {
      TagNamesContent(s.history, p.at.value, |s.log|);
    } else {
      assert MayReplace(s0, tag, s.history[|s.log|]);
    }
  }

  lemma UnreadStep(f: Callbacks, s0: State, s: State, step: Step, o: nat, c: Content, tag: Option<Tag>)
    requires Unread(f, s0, s, o, c, tag) && Indifferent(f, s0, o, c, tag) && Enabled(s, step)
    ensures Unread(f, s0, Next(f, s, step), o, c, tag)
  {
    hide NewContent, MayReplace, Indifferent;
    if step.ReplaceDone? && step.o == o {
      ReplaceFinds(f, s0, s, o, c, tag);
    }
  }

  lemma {:induction false} UnreadRun(f: Callbacks, s0: State, s: State, steps: seq<Step>, o: nat, c: Content, tag: Option<Tag>)
    requires Unread(f, s0, s, o, c, tag) && Indifferent(f, s0, o, c, tag) && Runs(f, s, steps)
    ensures Unread(f, s0, Run(f, s, steps), o, c, tag)
    decreases |steps|
  {
    hide Unread, Indifferent, Next, Enabled;
    if steps != [] {
      UnreadStep(f, s0, s, steps[0], o, c, tag);
      UnreadRun(f, s0, Next(f, s, steps[0]), steps[1..], o, c, tag);
    }
  }

  /** The same version made elsewhere, some number of times. */
  function Repeated(other: Content, n: nat): seq<Step> {
    if n == 0 then [] else [Elsewhere(other)] + Repeated(other, n - 1)
  }

  /** How many versions have to be made elsewhere before the replace finds this content. */
  function Until(s: State, tag: Option<Tag>): nat {
    if tag.Some? && tag.value.Version? then if tag.value.number > |s.log| then tag.value.number - |s.log| else 0
    else 1
  }

  lemma {:induction false} ThenReplace(f: Callbacks, s: State, o: nat, p: Phase, other: Content, n: nat)
    requires |s.history| == |s.log| + 1 && o in s.ops && s.ops[o].phase == p && p.Replacing?
    requires n == 0 ==> other == s.history[|s.log|]
    requires p.expected == None || p.expected == Some(if other == Absent then Dash else Version(|s.log| + n))
    ensures var steps := Repeated(other, n) + [ReplaceDone(o), Reply(o, 0)];
      && Runs(f, s, steps)
      && var end := Run(f, s, steps);
         && o in end.ops && end.ops[o].phase.Resolved? && end.ops[o].phase.version == |s.log| + n + 1
         && |end.history| == |s.log| + n + 2
         && end.history[|s.log| + n] == other && end.history[|s.log| + n + 1] == p.content
    decreases n
  {
    var steps := Repeated(other, n) + [ReplaceDone(o), Reply(o, 0)];
    if n == 0 {
      assert steps == [ReplaceDone(o), Reply(o, 0)] && steps[1..] == [Reply(o, 0)] && [Reply(o, 0)][1..] == [];
      var s1 := Next(f, s, ReplaceDone(o));
      var s2 := Next(f, s1, Reply(o, 0));
      assert Runs(f, s2, []) && Run(f, s2, []) == s2;
      assert Runs(f, s1, [Reply(o, 0)]) && Run(f, s1, [Reply(o, 0)]) == s2;
    } else {
      assert steps[0] == Elsewhere(other) && steps[1..] == Repeated(other, n - 1) + [ReplaceDone(o), Reply(o, 0)];
      ThenReplace(f, Next(f, s, Elsewhere(other)), o, p, other, n - 1);
    }
  }

  /** A call with a content that is no version named by its tag, with any tag or none, keeps the last update in
      every run exactly if its callback is indifferent between that content and those its replace can find. */
  lemma UnreadKeeps(f: Callbacks, s: State, o: nat, c: Content, tag: Option<Tag>)
    requires |s.history| == |s.log| + 1 && Enabled(s, CallWith(o, c, tag, None))
    ensures KeepsAlways(f, Next(f, s, CallWith(o, c, tag, None)), o) <==> Indifferent(f, s, o, c, tag)
  {
    hide NewContent, Runs, Run;
    var s1 := Next(f, s, CallWith(o, c, tag, None));
    if Indifferent(f, s, o, c, tag) {
      forall more | Runs(f, s1, more)
        ensures Keeps(f, Run(f, s1, more), o)
      {
        UnreadRun(f, s, s1, more, o, c, tag);
      }
    }
    if KeepsAlways(f, s1, o) {
      forall other | MayReplace(s, tag, other)
        ensures NewContent(f, o, other) == NewContent(f, o, c)
      {
        var n := Until(s, tag);
        ThenReplace(f, s1, o, s1.ops[o].phase, other, n);
        assert Keeps(f, Run(f, s1, Repeated(other, n) + [ReplaceDone(o), Reply(o, 0)]), o);
      }
    }
  }

  /** Without a tag: exactly if the callback's answer does not depend on the content. */
  lemma NoTagKeeps(f: Callbacks, s: State, o: nat, c: Content)
    requires |s.history| == |s.log| + 1 && o !in s.ops
    ensures KeepsAlways(f, Next(f, s, CallWith(o, c, None, None)), o)
      <==> forall other: Content :: NewContent(f, o, other) == NewContent(f, o, c)
  {
    hide NewContent, KeepsAlways, Next;
    UnreadKeeps(f, s, o, c, None);
    if Indifferent(f, s, o, c, None) {
      forall other: Content
        ensures NewContent(f, o, other) == NewContent(f, o, c)
      {
        assert MayReplace(s, None, other);
      }
    }
  }

  /** With the current version's tag but another content: exactly if the callback makes the same of both. */
  lemma WrongContentKeeps(f: Callbacks, s: State, o: nat, c: Content)
    requires |s.history| == |s.log| + 1 && o !in s.ops && s.history[|s.log|] != Absent && s.history[|s.log|] != c
    ensures KeepsAlways(f, Next(f, s, CallWith(o, c, Some(CurrentTag(s)), None)), o)
      <==> NewContent(f, o, s.history[|s.log|]) == NewContent(f, o, c)
  {
    hide NewContent, KeepsAlways, Next;
    UnreadKeeps(f, s, o, c, Some(CurrentTag(s)));
    assert MayReplace(s, Some(CurrentTag(s)), s.history[|s.log|]);
  }

  // ----- Termination

  /** How many versions after number `from` are not the work of call `o`. */
  function Foreign(log: seq<Writer>, o: nat, from: nat): nat {
    if |log| <= from then 0
    else Foreign(log[..|log| - 1], o, from) + if By(log[|log| - 1], o) then 0 else 1
  }

  /** One conflict for an initial content that was stale when it was given. */
  function Stale(op: Op): nat { if op.withContent then 1 else 0 }

  /** Every conflict is charged to a version made elsewhere since the call began, or to a retry that joined an older
      read; and no version is charged more than twice. */
  ghost predicate Charged(s: State, o: nat, op: Op) {
    && op.born <= op.low <= |s.log| && op.born <= op.charged <= |s.log| && op.seen <= |s.log|
    && op.conflicts <= op.charged - op.born + op.joined + Stale(op)
    && op.conflicts <= (op.low - op.born) + (op.charged - op.born) + Stale(op)
    && (forall i | 0 <= i < |s.log| && By(s.log[i], o) :: op.low <= i && op.charged <= i)
    && match op.phase
       case Reading(since) =>
         && op.seen <= since == op.low && op.moves <= 3 * op.conflicts + 1
         && (since < op.charged ==> op.conflicts < op.charged - op.born + op.joined + Stale(op))
       case Replacing(_, _, expected, at) =>
         && op.moves <= 3 * op.conflicts + 2
         && ((op.withContent && op.conflicts == 0 && op.moves == 1 && op.seen == 0)
             || (at == Some(op.low) && op.charged <= op.seen && op.low <= op.seen && expected == Some(TagOf(s.history, op.low))
                 && (op.low < op.charged ==> op.conflicts < op.charged - op.born + op.joined + Stale(op))))
       case Refused =>
         && op.moves <= 3 * op.conflicts
         && ((op.withContent && op.conflicts == 1) || op.seen == op.low)
       case Committed(_, _) => op.moves <= 3 * op.conflicts + 3
       case _ => op.moves <= 3 * op.conflicts + 4
  }

  ghost predicate AllCharged(s: State) {
    |s.history| == |s.log| + 1 && forall o | o in s.ops :: Charged(s, o, s.ops[o])
  }

  lemma StartCharge(f: Callbacks, s: State, step: Step)
    requires AllCharged(s) && Once(s) && Enabled(s, step) && (step.Call? || step.CallWith?)
    ensures var s' := Next(f, s, step); step.o in s'.ops && Charged(s', step.o, s'.ops[step.o])
  {
    hide NewContent;
  }

  lemma ReadCharge(f: Callbacks, s: State, step: Step)
    requires AllCharged(s) && Once(s) && Enabled(s, step) && (step.ReadDone? || step.ReadConflict?)
    ensures var s' := Next(f, s, step); step.o in s'.ops && Charged(s', step.o, s'.ops[step.o])
  {
    hide NewContent;
  }

  lemma ReplaceCharge(f: Callbacks, s: State, step: Step)
    requires AllCharged(s) && Once(s) && Enabled(s, step) && (step.ReplaceDone? || step.ReplaceConflict?)
    ensures var s' := Next(f, s, step); step.o in s'.ops && Charged(s', step.o, s'.ops[step.o])
  {
    hide NewContent;
  }

  lemma ReplyCharge(f: Callbacks, s: State, step: Step)
    requires AllCharged(s) && Once(s) && Enabled(s, step) && step.Reply?
    ensures var s' := Next(f, s, step); step.o in s'.ops && Charged(s', step.o, s'.ops[step.o])
  {
    hide NewContent, Once;
    var op := s.ops[step.o];
    if op.phase.Refused? {
      MadeNone(s, step.o);
      RetryCharge(s, step.o, op, step.since);
    }
  }

  lemma MadeNone(s: State, o: nat)
    requires Once(s) && o in s.ops && Pending(s.ops[o].phase)
    ensures forall i | 0 <= i < |s.log| :: !By(s.log[i], o)
  {
  }

  lemma RetryCharge(s: State, o: nat, op: Op, since: nat)
    requires op.phase.Refused? && Charged(s, o, op) && op.seen <= since <= |s.log|
    requires forall i | 0 <= i < |s.log| :: !By(s.log[i], o)
    ensures Charged(s, o, Retry(op, since, |s.log|))
  {
  }

  lemma FailCharge(f: Callbacks, s: State, step: Step)
    requires AllCharged(s) && Once(s) && Enabled(s, step) && step.Fail?
    ensures var s' := Next(f, s, step); step.o in s'.ops && Charged(s', step.o, s'.ops[step.o])
  {
    hide NewContent, Once;
  }

  lemma OwnCharge(f: Callbacks, s: State, step: Step)
    requires AllCharged(s) && Once(s) && Enabled(s, step) && !step.Elsewhere?
    ensures var s' := Next(f, s, step); step.o in s'.ops && Charged(s', step.o, s'.ops[step.o])
  {
    hide *;
    match step
    case Call(_, _) => StartCharge(f, s, step);
    case CallWith(_, _, _, _) => StartCharge(f, s, step);
    case ReadDone(_, _) => ReadCharge(f, s, step);
    case ReadConflict(_) => ReadCharge(f, s, step);
    case ReplaceDone(_) => ReplaceCharge(f, s, step);
    case ReplaceConflict(_) => ReplaceCharge(f, s, step);
    case Reply(_, _) => ReplyCharge(f, s, step);
    case Fail(_) => FailCharge(f, s, step);
  }

  lemma OtherCharge(f: Callbacks, s: State, step: Step, q: nat)
    requires AllCharged(s) && Once(s) && Enabled(s, step) && q in Next(f, s, step).ops
    requires !step.Elsewhere? ==> q != step.o
    ensures var s' := Next(f, s, step); Charged(s', q, s'.ops[q])
  {
    hide NewContent;
  }

  lemma StepCharged(f: Callbacks, s: State, step: Step)
    requires AllCharged(s) && Once(s) && Enabled(s, step)
    ensures AllCharged(Next(f, s, step))
  {
    hide NewContent, Charged, Enabled, Once;
    forall q: nat | q in Next(f, s, step).ops ensures Charged(Next(f, s, step), q, Next(f, s, step).ops[q]) {
      if !step.Elsewhere? && q == step.o {
        OwnCharge(f, s, step);
      } else {
        OtherCharge(f, s, step, q);
      }
    }
  }

  lemma {:induction false} RunCharged(f: Callbacks, c: Content, s: State, steps: seq<Step>)
    requires Inv(f, c, s) && AllCharged(s) && Runs(f, s, steps)
    ensures AllCharged(Run(f, s, steps)) && Inv(f, c, Run(f, s, steps))
    decreases |steps|
  {
    hide AllCharged, Replayed, OpOk, Once, Next, Enabled;
    if steps != [] {
      StepInv(f, c, s, steps[0]);
      StepCharged(f, s, steps[0]);
      RunCharged(f, c, Next(f, s, steps[0]), steps[1..]);
    }
  }

  lemma {:induction false} ForeignUpTo(log: seq<Writer>, o: nat, from: nat, to: nat)
    requires from <= to <= |log| && forall i | 0 <= i < |log| && By(log[i], o) :: to <= i
    ensures Foreign(log, o, from) >= to - from
  {
    if |log| > to {
      ForeignUpTo(log[..|log| - 1], o, from, to);
    } else if to > from {
      ForeignUpTo(log[..|log| - 1], o, from, to - 1);
    }
  }

  /** In every run a call has at most as many conflicts as other writers made versions since its first read began,
      one more for each retry that joined an older read, and one more if it was called with a content; never
      more than twice as many, however many reads it joins; and its steps are bounded by its conflicts. */
  lemma ConflictsAreForeign(f: Callbacks, c: Content, steps: seq<Step>, o: nat)
    requires Runs(f, Init(c), steps) && o in Run(f, Init(c), steps).ops
    ensures var s := Run(f, Init(c), steps);
      var op := s.ops[o];
      && op.conflicts <= Foreign(s.log, o, op.born) + op.joined + Stale(op)
      && op.conflicts <= 2 * Foreign(s.log, o, op.born) + Stale(op)
      && op.moves <= 3 * op.conflicts + 4
  {
    var s := Run(f, Init(c), steps);
    var op := s.ops[o];
    InitInv(f, c);
    RunCharged(f, c, Init(c), steps);
    ForeignUpTo(s.log, o, op.born, op.charged);
    ForeignUpTo(s.log, o, op.born, op.low);
  }

  /** A step and what comes after it. */
  lemma After(f: Callbacks, s: State, step: Step, more: seq<Step>) returns (steps: seq<Step>)
    requires Enabled(s, step) && Runs(f, Next(f, s, step), more)
    ensures steps == [step] + more && Runs(f, s, steps) && Run(f, s, steps) == Run(f, Next(f, s, step), more)
  {
    steps := [step] + more;
    assert steps[1..] == more;
  }

  lemma RefusedStep(f: Callbacks, s: State, o: nat)
    requires o in s.ops && s.ops[o].phase.Replacing?
    requires s.ops[o].phase.expected.Some? && s.ops[o].phase.expected.value != CurrentTag(s)
    ensures Enabled(s, ReplaceConflict(o))
    ensures var n := Next(f, s, ReplaceConflict(o));
      && n.history == s.history && n.log == s.log
      && o in n.ops && n.ops[o].phase == Refused && n.ops[o].seen == s.ops[o].seen
      && n.ops[o].conflicts == s.ops[o].conflicts + 1
  {
  }

  lemma JoinStep(f: Callbacks, s: State, o: nat, since: nat)
    requires o in s.ops && s.ops[o].phase == Refused && s.ops[o].seen <= since <= |s.log|
    ensures Enabled(s, Reply(o, since))
    ensures var n := Next(f, s, Reply(o, since));
      && n.history == s.history && n.log == s.log
      && o in n.ops && n.ops[o].phase == Reading(since) && n.ops[o].conflicts == s.ops[o].conflicts
  {
  }

  lemma ReadStep(f: Callbacks, s: State, o: nat, k: nat)
    requires o in s.ops && s.ops[o].phase.Reading? && s.ops[o].phase.since <= k <= |s.log| < |s.history|
    ensures Enabled(s, ReadDone(o, k))
    ensures var n := Next(f, s, ReadDone(o, k));
      && n.history == s.history && n.log == s.log
      && o in n.ops && n.ops[o].phase.Replacing? && n.ops[o].phase.expected == Some(TagOf(s.history, k))
      && n.ops[o].conflicts == s.ops[o].conflicts
  {
  }

  /** A call that works on version `k` when the file has moved on can be refused twice without any further version,
      if its retry joins a read that was opened right after its own was done. */
  lemma JoinedReadRefused(f: Callbacks, s: State, o: nat, k: nat) returns (steps: seq<Step>)
    requires |s.history| == |s.log| + 1 && o in s.ops && s.ops[o].phase.Replacing?
    requires s.ops[o].seen <= k < |s.log| && s.ops[o].phase.expected == Some(TagOf(s.history, k)) != Some(CurrentTag(s))
    ensures Runs(f, s, steps)
    ensures var n := Run(f, s, steps);
      n.log == s.log && o in n.ops && n.ops[o].phase == Refused && n.ops[o].conflicts == s.ops[o].conflicts + 2
  {
    hide Next, Enabled, TagOf;
    RefusedStep(f, s, o);
    var s1 := Next(f, s, ReplaceConflict(o));
    JoinStep(f, s1, o, k);
    var s2 := Next(f, s1, Reply(o, k));
    ReadStep(f, s2, o, k);
    var s3 := Next(f, s2, ReadDone(o, k));
    assert CurrentTag(s3) == CurrentTag(s);
    RefusedStep(f, s3, o);
    steps := After(f, s3, ReplaceConflict(o), []);
    steps := After(f, s2, ReadDone(o, k), steps);
    steps := After(f, s1, Reply(o, k), steps);
    steps := After(f, s, ReplaceConflict(o), steps);
  }

  lemma InitInv(f: Callbacks, c: Content)
    ensures Inv(f, c, Init(c)) && AllCharged(Init(c))
  {
  }

  /** A call that has neither resolved nor been rejected can always go on without failing, and whatever
      step of its own it makes is counted. */
  lemma NeverStuck(f: Callbacks, s: State, o: nat)
    requires AllCharged(s) && o in s.ops && !s.ops[o].phase.Resolved? && !s.ops[o].phase.Rejected?
    ensures exists step: Step :: !step.Fail? && !step.Elsewhere? && step.o == o && Enabled(s, step)
    ensures forall step: Step | !step.Elsewhere? && step.o == o && Enabled(s, step) ::
      o in Next(f, s, step).ops && Next(f, s, step).ops[o].moves == s.ops[o].moves + 1
  {
    hide Next, AllCharged, Enabled, CurrentTag;
    var step := GoOn(s, o);
    SizesMatch(s);
    GoesOn(s, o);
    forall own: Step | !own.Elsewhere? && own.o == o && Enabled(s, own)
      ensures o in Next(f, s, own).ops && Next(f, s, own).ops[o].moves == s.ops[o].moves + 1
    {
      StepCounts(f, s, own);
    }
  }

  /** A step that a call can make next. */
  function GoOn(s: State, o: nat): Step
    requires o in s.ops
  {
    match s.ops[o].phase
    case Reading(_) => ReadDone(o, |s.log|)
    case Replacing(_, _, expected, _) =>
      if expected == None || expected == Some(CurrentTag(s)) then ReplaceDone(o) else ReplaceConflict(o)
    case _ => Reply(o, |s.log|)
  }

  lemma SizesMatch(s: State)
    requires AllCharged(s)
    ensures |s.history| == |s.log| + 1
    ensures forall o | o in s.ops :: s.ops[o].seen <= |s.log| && (s.ops[o].phase.Reading? ==> s.ops[o].phase.since <= |s.log|)
  {
    assert forall o | o in s.ops :: Charged(s, o, s.ops[o]);
  }

  lemma GoesOn(s: State, o: nat)
    requires |s.history| == |s.log| + 1 && o in s.ops && !s.ops[o].phase.Resolved? && !s.ops[o].phase.Rejected?
    requires s.ops[o].seen <= |s.log| && (s.ops[o].phase.Reading? ==> s.ops[o].phase.since <= |s.log|)
    ensures var step := GoOn(s, o);
      !step.Fail? && !step.Elsewhere? && step.o == o && Enabled(s, step)
  {
  }

  lemma StepCounts(f: Callbacks, s: State, step: Step)
    requires |s.history| == |s.log| + 1 && !step.Elsewhere? && step.o in s.ops && Enabled(s, step)
    ensures step.o in Next(f, s, step).ops && Next(f, s, step).ops[step.o].moves == s.ops[step.o].moves + 1
  {
    hide NewContent;
  }
}
