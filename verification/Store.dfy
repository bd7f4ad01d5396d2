/** The result store: one record, and the queue that serialises records onto the disk. */
module Store {
  import opened Lists
  import opened Results
  import opened Sanitize
  import opened Canonical
  import opened Diff

  // ------------------------------------------------------------------ one record

  datatype What = Initial | Differences(lines: seq<Difference>)

  /** One event of the change log. */
  datatype Entry = Entry(at: string, browserKey: string, browserName: string, browserVersion: Option<string>,
                         what: What)

  datatype State = State(latest: map<string, Snapshot>, changes: seq<Entry>)

  datatype Setup = Setup(cfg: Config, requireGrease: bool, maxChanges: int)

  /** What a fulfilled `record` resolves to. */
  datatype Ack = Ack(browserKey: string, changed: bool, differences: seq<Difference>, receivedAt: string)

  datatype Done = Done(next: State, ack: Ack)

  const EMPTY: State := State(map[], [])

  /** `list.slice(-m)`: the last m elements for m > 0; `-0` keeps all, and a negative m drops from
      the front. */
  function SliceLast<T>(s: seq<T>, m: int): seq<T> {
    if m > 0 then (if |s| <= m then s else s[|s| - m..])
    else if -m >= |s| then (if m == 0 then s else [])
    else s[-m..]
  }

  /** A positive limit keeps the last elements, zero keeps all, a negative one drops that many from the
      front. */
  lemma SliceLastExactly<T>(s: seq<T>, m: int)
    ensures var r := SliceLast(s, m);
            && |r| == (if m > 0 then (if |s| < m then |s| else m)
                       else if |s| + m > 0 then |s| + m
                       else 0)
            && forall k :: 0 <= k < |r| ==> r[k] == s[|s| - |r| + k]
  {
  }

  function PreviousOf(state: State, key: string): Option<Snapshot> {
    if key in state.latest then Some(state.latest[key]) else None
  }

  predicate IsChange(state: State, current: Snapshot) {
    var previous := PreviousOf(state, current.browser.key);
    previous.None? || |DiffOf(previous, current)| > 0
  }

  function EntryFor(state: State, current: Snapshot): Entry {
    var previous := PreviousOf(state, current.browser.key);
    Entry(current.receivedAt, current.browser.key, current.browser.name, current.browser.version,
          if previous.None? then Initial else Differences(DiffOf(previous, current)))
  }

  function LogAfter(state: State, current: Snapshot, maxChanges: int): seq<Entry> {
    if IsChange(state, current) then SliceLast(state.changes + [EntryFor(state, current)], maxChanges)
    else state.changes
  }

  /** The state one accepted result leads to, and the answer to its sender. */
  function Recorded(state: State, current: Snapshot, maxChanges: int): Done {
    Done(State(state.latest[current.browser.key := current], LogAfter(state, current, maxChanges)),
         Ack(current.browser.key, IsChange(state, current), DiffOf(PreviousOf(state, current.browser.key), current),
             current.receivedAt))
  }

  /** One `record` on its own: the sequential specification of the store. */
  function RecordOf(state: State, input: RawSubmission, at: string, setup: Setup): Result<Done> {
    var current :- SubmissionOf(input, at, setup.requireGrease, setup.cfg);
    Accepted(Recorded(state, current, setup.maxChanges))
  }

  /** Everything the operation computes before it touches the disk. */
  method Prepare(state: State, input: RawSubmission, at: string, setup: Setup) returns (r: Result<Done>)
    requires Distinct(setup.cfg.paths)
    ensures r == RecordOf(state, input, at, setup)
  {
    hide SubmissionOf, DiffOf;
    var sanitized := SanitizeSubmission(input, at, setup.requireGrease, setup.cfg);
    if sanitized.Rejected? { return Rejected; }
    var current := sanitized.value;
    var previous := if current.browser.key in state.latest then Some(state.latest[current.browser.key]) else None;
    var differences := DiffSnapshots(previous, current);
    var changes := state.changes;
    if previous.None? || |differences| > 0 {
      var browser := current.browser;
      changes := changes + [Entry(current.receivedAt, browser.key, browser.name, browser.version,
                                  if previous.None? then Initial else Differences(differences))];
      changes := SliceLast(changes, setup.maxChanges);
    }
    var next := State(state.latest[current.browser.key := current], changes);
    hide SliceLast;
    ReceivedAtKept(input, at, setup);
    return Accepted(Done(next, Ack(current.browser.key, previous.None? || |differences| > 0, differences, at)));
  }

  lemma ReceivedAtKept(input: RawSubmission, at: string, setup: Setup)
    ensures SubmissionOf(input, at, setup.requireGrease, setup.cfg).Accepted? ==>
            SubmissionOf(input, at, setup.requireGrease, setup.cfg).value.receivedAt == at
  {
    hide NormalizeBrowser, RunOf, CountsOf, PathsOf, GreaseOf, ConclusionFor;
  }

  // ------------------------------------------------------------------ the bounded log

  /** The event a record adds to the full history: one if anything changed, else none. */
  function EventOf(state: State, current: Snapshot): seq<Entry> {
    if IsChange(state, current) then [EntryFor(state, current)] else []
  }

  function Kept(state: State, m: int): bool {
    SliceLast(state.changes, m) == state.changes
  }

  /** Trimming a trimmed log again changes nothing exactly for limits that are not negative. */
  lemma TrimTwice<T(!new)>(m: int, x: T)
    ensures m >= 0 <==> forall s: seq<T> :: SliceLast(SliceLast(s, m), m) == SliceLast(s, m)
  {
    if m < 0 {
      var s := seq(-2 * m, _ => x);
      assert |SliceLast(s, m)| == -m && |SliceLast(SliceLast(s, m), m)| == 0;
    }
  }

  /** Trimming at each step is trimming once. */
  lemma TrimStep<T>(s: seq<T>, x: T, m: int)
    requires m >= 0
    ensures SliceLast(SliceLast(s, m) + [x], m) == SliceLast(s + [x], m)
  {
  }

  lemma TrimAgain<T>(s: seq<T>, m: int)
    requires m >= 0
    ensures SliceLast(SliceLast(s, m), m) == SliceLast(s, m)
  {
  }

  lemma RecordKeepsLog(state: State, input: RawSubmission, at: string, setup: Setup)
    requires setup.maxChanges >= 0 && Kept(state, setup.maxChanges)
    requires RecordOf(state, input, at, setup).Accepted?
    ensures Kept(RecordOf(state, input, at, setup).value.next, setup.maxChanges)
  {
    hide SubmissionOf, DiffOf, SliceLast, IsChange, EntryFor;
    var current := SubmissionOf(input, at, setup.requireGrease, setup.cfg).value;
    TrimAgain(state.changes + [EntryFor(state, current)], setup.maxChanges);
  }

  // ------------------------------------------------------------------ the disk and the queue

  /** The result file. Torn is what a rename of a half-written file would leave. */
  datatype File = Missing | Torn | Complete(state: State)
  datatype Temp = NoTemp | Partial | Full(content: State)

  /** Where an operation is inside `persist`; at Renamed the file is in place and `state` is not yet
      reassigned. */
  datatype Phase = MakingDirectory | Writing | Renaming | Renamed

  datatype Status =
    | Waiting
    | Persisting(phase: Phase, at: string, next: State, ack: Ack)
    | Fulfilled(time: string, answer: Ack)
    | Failed

  datatype Op = Op(input: RawSubmission, status: Status)

  /** A record that reached the disk, and whether its sender was told. */
  datatype Logged = Logged(input: RawSubmission, at: string, acked: bool)

  /** The process, its disk, and three histories no step reads: the state last loaded, the records
      that reached the disk, and the answers given, both since the very first start. */
  datatype World = World(
    memory: State, file: File, temp: Temp, ops: seq<Op>,
    base: State, ledger: seq<Logged>, answers: seq<Ack>)

  datatype Event =
    | Call(input: RawSubmission)
    | Begin(i: nat, at: string)
    | DirectoryMade(i: nat)
    | WrittenPartly(i: nat)
    | WrittenFully(i: nat)
    | RenameDone(i: nat)
    | Commit(i: nat)
    | IoFailed(i: nat)
    | Crash

  /** `load`: a missing file leaves the empty state, a torn one is an error. */
  function Loaded(file: File, maxChanges: int): Result<State> {
    match file
    case Missing => Accepted(EMPTY)
    case Torn => Rejected
    case Complete(s) => Accepted(s.(changes := SliceLast(s.changes, maxChanges)))
  }

  predicate Settled(op: Op) {
    op.status.Fulfilled? || op.status.Failed?
  }

  predicate InPhase(w: World, i: nat, phase: Phase) {
    i < |w.ops| && w.ops[i].status.Persisting? && w.ops[i].status.phase == phase
  }

  /** An operation starts when the promise before it in the chain has settled either way; from then on
      only its own progress matters. */
  predicate Enabled(w: World, e: Event, setup: Setup) {
    match e
    case Call(_) => true
    case Begin(i, _) => i < |w.ops| && w.ops[i].status.Waiting? && (i == 0 || Settled(w.ops[i - 1]))
    case DirectoryMade(i) => InPhase(w, i, MakingDirectory)
    case WrittenPartly(i) => InPhase(w, i, Writing)
    case WrittenFully(i) => InPhase(w, i, Writing)
    case RenameDone(i) => InPhase(w, i, Renaming) && w.temp != NoTemp
    case Commit(i) => InPhase(w, i, Renamed)
    case IoFailed(i) => InPhase(w, i, MakingDirectory) || InPhase(w, i, Writing) || InPhase(w, i, Renaming)
    case Crash => Loaded(w.file, setup.maxChanges).Accepted?
  }

  function WithStatus(w: World, i: nat, status: Status): World
    requires i < |w.ops|
  {
    w.(ops := w.ops[i := Op(w.ops[i].input, status)])
  }

  function WithPhase(w: World, i: nat, phase: Phase): World
    requires i < |w.ops| && w.ops[i].status.Persisting?
  {
    WithStatus(w, i, w.ops[i].status.(phase := phase))
  }

  function FileFrom(temp: Temp): File
    requires temp != NoTemp
  {
    if temp.Full? then Complete(temp.content) else Torn
  }

  function Acked(ledger: seq<Logged>): seq<Logged> {
    if ledger == [] then [] else ledger[|ledger| - 1 := ledger[|ledger| - 1].(acked := true)]
  }

  function Step(w: World, e: Event, setup: Setup): World
    requires Enabled(w, e, setup)
  {
    match e
    case Call(input) => w.(ops := w.ops + [Op(input, Waiting)])
    case Begin(i, at) =>
      var r := RecordOf(w.memory, w.ops[i].input, at, setup);
      WithStatus(w, i, if r.Rejected? then Failed else Persisting(MakingDirectory, at, r.value.next, r.value.ack))
    case DirectoryMade(i) => WithPhase(w, i, Writing)
    case WrittenPartly(i) => w.(temp := Partial)
    case WrittenFully(i) => WithPhase(w, i, Renaming).(temp := Full(w.ops[i].status.next))
    case RenameDone(i) =>
      WithPhase(w, i, Renamed).(file := FileFrom(w.temp), temp := NoTemp,
                                ledger := w.ledger + [Logged(w.ops[i].input, w.ops[i].status.at, false)])
    case Commit(i) =>
      WithStatus(w, i, Fulfilled(w.ops[i].status.at, w.ops[i].status.ack))
        .(memory := w.ops[i].status.next, ledger := Acked(w.ledger), answers := w.answers + [w.ops[i].status.ack])
    case IoFailed(i) => WithStatus(w, i, Failed)
    case Crash =>
      var loaded := Loaded(w.file, setup.maxChanges).value;
      World(loaded, w.file, NoTemp, [], loaded, w.ledger, w.answers)
  }

  /** A freshly started store over whatever complete file it finds. */
  function Started(file: File, setup: Setup): World
    requires file != Torn
  {
    var loaded := Loaded(file, setup.maxChanges).value;
    World(loaded, file, NoTemp, [], loaded, [], [])
  }

  /** The world after a run; none when some event in it could not happen. */
  ghost function Run(w: World, es: seq<Event>, setup: Setup): Option<World> {
    if es == [] then Some(w)
    else
      var n := |es| - 1;
      var before := Run(w, es[..n], setup);
      if before.Some? && Enabled(before.value, es[n], setup) then Some(Step(before.value, es[n], setup)) else None
  }

  // ------------------------------------------------------------------ what a run should amount to

  /** The left fold of the successful records, in call order. */
  function Fold(base: State, ops: seq<Op>, setup: Setup): State {
    if ops == [] then base
    else
      var n := |ops| - 1;
      var before := Fold(base, ops[..n], setup);
      if ops[n].status.Fulfilled? then After(before, ops[n].input, ops[n].status.time, setup) else before
  }

  function After(state: State, input: RawSubmission, at: string, setup: Setup): State {
    var r := RecordOf(state, input, at, setup);
    if r.Accepted? then r.value.next else state
  }

  /** The records that reached the disk, applied one after the other. */
  function Replay(start: State, ledger: seq<Logged>, setup: Setup): State {
    if ledger == [] then start
    else
      var n := |ledger| - 1;
      After(Replay(start, ledger[..n], setup), ledger[n].input, ledger[n].at, setup)
  }

  /** The answers the sequential specification gives to the acknowledged ones. */
  function AnswersOf(start: State, ledger: seq<Logged>, setup: Setup): seq<Ack> {
    if ledger == [] then []
    else
      var n := |ledger| - 1;
      var r := RecordOf(Replay(start, ledger[..n], setup), ledger[n].input, ledger[n].at, setup);
      AnswersOf(start, ledger[..n], setup) + if ledger[n].acked && r.Accepted? then [r.value.ack] else []
  }

  /** How many operations at the head of the queue have settled. */
  function Head(ops: seq<Op>): (n: nat)
    ensures n <= |ops|
    ensures forall j :: 0 <= j < n ==> Settled(ops[j])
    ensures n < |ops| ==> !Settled(ops[n])
  {
    if ops == [] || !Settled(ops[0]) then 0 else 1 + Head(ops[1..])
  }

  /** The operation at the head is in the middle of its write. */
  predicate Active(w: World) {
    var i := Head(w.ops);
    i < |w.ops| && w.ops[i].status.Persisting?
  }

  function Current(w: World): Status
    requires Active(w)
  {
    w.ops[Head(w.ops)].status
  }

  /** The state a load would find. */
  function Durable(w: World): State {
    if Active(w) && Current(w).phase == Renamed then Current(w).next else w.memory
  }

  ghost predicate QueueInOrder(w: World) {
    forall j :: Head(w.ops) < j < |w.ops| ==> w.ops[j].status.Waiting?
  }

  ghost predicate MemoryIsFold(w: World, setup: Setup) {
    && w.memory == Fold(w.base, w.ops, setup)
    && (forall i :: 0 <= i < |w.ops| && w.ops[i].status.Fulfilled? ==>
        Answered(Fold(w.base, w.ops[..i], setup), w.ops[i].input, w.ops[i].status, setup))
  }

  ghost predicate Answered(state: State, input: RawSubmission, status: Status, setup: Setup)
    requires status.Fulfilled?
  {
    var r := RecordOf(state, input, status.time, setup);
    r.Accepted? && r.value.ack == status.answer
  }

  ghost predicate WriteInProgress(w: World, setup: Setup) {
    Active(w) ==>
      && Prepared(w.memory, w.ops[Head(w.ops)].input, Current(w), setup)
      && (Current(w).phase == Renaming ==> w.temp == Full(Current(w).next))
  }

  ghost predicate Prepared(state: State, input: RawSubmission, status: Status, setup: Setup)
    requires status.Persisting?
  {
    RecordOf(state, input, status.at, setup) == Accepted(Done(status.next, status.ack))
  }

  ghost predicate DiskAgrees(w: World, setup: Setup) {
    && Loaded(w.file, setup.maxChanges) == Accepted(Durable(w))
    && Kept(w.memory, setup.maxChanges)
  }

  ghost predicate HistoryAgrees(w: World, start: State, setup: Setup) {
    && Replay(start, w.ledger, setup) == Durable(w)
    && w.answers == AnswersOf(start, w.ledger, setup)
    && (Active(w) && Current(w).phase == Renamed ==>
        && w.ledger != []
        && var n := |w.ledger| - 1;
           && w.ledger[n] == Logged(w.ops[Head(w.ops)].input, Current(w).at, false)
           && Replay(start, w.ledger[..n], setup) == w.memory)
  }

  ghost predicate Inv(w: World, start: State, setup: Setup) {
    && QueueInOrder(w) && MemoryIsFold(w, setup) && WriteInProgress(w, setup)
    && DiskAgrees(w, setup) && HistoryAgrees(w, start, setup)
  }

  // ------------------------------------------------------------------ one step

  lemma HeadIs(ops: seq<Op>, i: nat)
    requires i <= |ops| && (forall j :: 0 <= j < i ==> Settled(ops[j])) && (i < |ops| ==> !Settled(ops[i]))
    ensures Head(ops) == i
  {
  }

  lemma Unsettled(w: World)
    requires QueueInOrder(w)
    ensures forall j :: Head(w.ops) <= j < |w.ops| ==> !Settled(w.ops[j])
  {
  }

  /** Whatever can happen to an operation happens to the one at the head. */
  lemma ActsAtHead(w: World, i: nat)
    requires QueueInOrder(w) && i < |w.ops|
    requires w.ops[i].status.Persisting? || (w.ops[i].status.Waiting? && (i == 0 || Settled(w.ops[i - 1])))
    ensures i == Head(w.ops) && Active(w) == w.ops[i].status.Persisting?
  {
    Unsettled(w);
  }

  lemma HeadAfter(w: World, i: nat, status: Status)
    requires QueueInOrder(w) && i == Head(w.ops) < |w.ops| && !status.Waiting?
    ensures var v := WithStatus(w, i, status);
            && QueueInOrder(v)
            && Head(v.ops) == (if status.Persisting? then i else i + 1)
            && Active(v) == status.Persisting?
  {
    var v := WithStatus(w, i, status);
    HeadIs(v.ops, if status.Persisting? then i else i + 1);
  }

  lemma {:induction false} FoldTail(base: State, ops: seq<Op>, i: nat, setup: Setup)
    requires i <= |ops| && forall j :: i <= j < |ops| ==> !ops[j].status.Fulfilled?
    ensures Fold(base, ops, setup) == Fold(base, ops[..i], setup)
    decreases |ops|
  {
    if i < |ops| {
      var n := |ops| - 1;
      FoldTail(base, ops[..n], i, setup);
      assert ops[..n][..i] == ops[..i];
    } else {
      assert ops[..i] == ops;
    }
  }

  lemma FoldAfter(w: World, i: nat, status: Status, setup: Setup)
    requires QueueInOrder(w) && i == Head(w.ops) < |w.ops| && MemoryIsFold(w, setup)
    ensures var v := WithStatus(w, i, status);
            Fold(v.base, v.ops, setup) ==
            if status.Fulfilled? then After(w.memory, w.ops[i].input, status.time, setup) else w.memory
    ensures Fold(w.base, w.ops[..i], setup) == w.memory
  {
    hide After, Answered, Head;
    var v := WithStatus(w, i, status);
    FoldTail(w.base, w.ops, i, setup);
    FoldTail(w.base, v.ops, i + 1, setup);
    assert v.ops[..i + 1][..i] == w.ops[..i];
  }

  /** The head settles or moves on: the fold follows, and earlier answers stay right. */
  lemma FoldKept(w: World, i: nat, status: Status, memory: State, setup: Setup)
    requires QueueInOrder(w) && i == Head(w.ops) < |w.ops| && MemoryIsFold(w, setup)
    requires memory == if status.Fulfilled? then After(w.memory, w.ops[i].input, status.time, setup) else w.memory
    requires status.Fulfilled? ==> Answered(w.memory, w.ops[i].input, status, setup)
    ensures MemoryIsFold(WithStatus(w, i, status).(memory := memory), setup)
  {
    hide After, Answered, Fold;
    FoldAfter(w, i, status, setup);
    var v := WithStatus(w, i, status).(memory := memory);
    forall k | 0 <= k < |v.ops| && v.ops[k].status.Fulfilled?
      ensures Answered(Fold(v.base, v.ops[..k], setup), v.ops[k].input, v.ops[k].status, setup)
    {
      assert k <= i;
      assert v.ops[..k] == w.ops[..k];
    }
  }

  lemma FoldSnocWaiting(base: State, ops: seq<Op>, op: Op, setup: Setup)
    requires op.status.Waiting?
    ensures Fold(base, ops + [op], setup) == Fold(base, ops, setup)
  {
    hide After;
    assert (ops + [op])[..|ops|] == ops;
  }

  lemma FoldCall(w: World, v: World, input: RawSubmission, setup: Setup)
    requires MemoryIsFold(w, setup) && v == w.(ops := w.ops + [Op(input, Waiting)])
    ensures MemoryIsFold(v, setup)
  {
    hide Answered, Fold;
    FoldSnocWaiting(w.base, w.ops, Op(input, Waiting), setup);
    forall k | 0 <= k < |v.ops| && v.ops[k].status.Fulfilled?
      ensures Answered(Fold(v.base, v.ops[..k], setup), v.ops[k].input, v.ops[k].status, setup)
    {
      assert v.ops[..k] == w.ops[..k];
    }
  }

  lemma InvCall(w: World, start: State, setup: Setup, input: RawSubmission)
    requires Inv(w, start, setup)
    ensures Inv(Step(w, Call(input), setup), start, setup)
  {
    hide RecordOf, Loaded, Replay, AnswersOf, Kept, MemoryIsFold, Head, Prepared;
    var v := Step(w, Call(input), setup);
    HeadIs(v.ops, Head(w.ops));
    FoldCall(w, v, input, setup);
  }

  lemma InvBegin(w: World, start: State, setup: Setup, i: nat, at: string)
    requires Inv(w, start, setup) && Enabled(w, Begin(i, at), setup)
    ensures Inv(Step(w, Begin(i, at), setup), start, setup)
  {
    hide After, Answered, RecordOf, Loaded, Replay, AnswersOf, Kept, Fold, Head, MemoryIsFold;
    ActsAtHead(w, i);
    var v := Step(w, Begin(i, at), setup);
    HeadAfter(w, i, v.ops[i].status);
    FoldKept(w, i, v.ops[i].status, w.memory, setup);
  }

  lemma InvPhase(w: World, start: State, setup: Setup, i: nat, phase: Phase, temp: Temp)
    requires Inv(w, start, setup) && i < |w.ops| && w.ops[i].status.Persisting?
    requires w.ops[i].status.phase != Renamed && phase != Renamed
    requires phase == Renaming ==> temp == Full(w.ops[i].status.next)
    ensures Inv(WithPhase(w, i, phase).(temp := temp), start, setup)
  {
    hide After, Answered, RecordOf, Loaded, Replay, AnswersOf, Kept, Fold, Head, MemoryIsFold;
    ActsAtHead(w, i);
    var status := w.ops[i].status.(phase := phase);
    HeadAfter(w, i, status);
    FoldKept(w, i, status, w.memory, setup);
    MemoryFramed(WithStatus(w, i, status).(memory := w.memory), WithPhase(w, i, phase).(temp := temp), setup);
  }

  lemma MemoryFramed(w: World, v: World, setup: Setup)
    requires w.memory == v.memory && w.ops == v.ops && w.base == v.base
    ensures MemoryIsFold(w, setup) == MemoryIsFold(v, setup)
  {
  }

  lemma ReplaySnoc(start: State, ledger: seq<Logged>, record: Logged, setup: Setup)
    ensures Replay(start, ledger + [record], setup) ==
      After(Replay(start, ledger, setup), record.input, record.at, setup)
    ensures !record.acked ==> AnswersOf(start, ledger + [record], setup) == AnswersOf(start, ledger, setup)
  {
    hide After, RecordOf;
    assert (ledger + [record])[..|ledger|] == ledger;
  }

  lemma ReplayAcked(start: State, ledger: seq<Logged>, setup: Setup, ack: Ack)
    requires ledger != [] && !ledger[|ledger| - 1].acked
    requires var n := |ledger| - 1;
             var r := RecordOf(Replay(start, ledger[..n], setup), ledger[n].input, ledger[n].at, setup);
             r.Accepted? && r.value.ack == ack
    ensures Replay(start, Acked(ledger), setup) == Replay(start, ledger, setup)
    ensures AnswersOf(start, Acked(ledger), setup) == AnswersOf(start, ledger, setup) + [ack]
  {
    hide After, RecordOf;
    var n := |ledger| - 1;
    assert Acked(ledger)[..n] == ledger[..n];
  }

  lemma PreparedAfter(state: State, input: RawSubmission, status: Status, setup: Setup)
    requires setup.maxChanges >= 0 && Kept(state, setup.maxChanges)
    requires status.Persisting? && Prepared(state, input, status, setup)
    ensures After(state, input, status.at, setup) == status.next
    ensures Answered(state, input, Fulfilled(status.at, status.ack), setup)
    ensures Kept(status.next, setup.maxChanges)
    ensures Loaded(Complete(status.next), setup.maxChanges) == Accepted(status.next)
  {
    hide SliceLast, RecordOf;
    RecordKeepsLog(state, input, status.at, setup);
  }

  lemma InvRename(w: World, start: State, setup: Setup, i: nat)
    requires setup.maxChanges >= 0
    requires Inv(w, start, setup) && Enabled(w, RenameDone(i), setup)
    ensures Inv(Step(w, RenameDone(i), setup), start, setup)
  {
    hide Answered, Fold, Head, MemoryIsFold, RecordOf, After, Replay, AnswersOf, Loaded, Kept, Prepared;
    ActsAtHead(w, i);
    var v := Step(w, RenameDone(i), setup);
    var op := w.ops[i];
    HeadAfter(w, i, v.ops[i].status);
    FoldKept(w, i, v.ops[i].status, w.memory, setup);
    MemoryFramed(WithStatus(w, i, v.ops[i].status).(memory := w.memory), v, setup);
    PreparedAfter(w.memory, op.input, op.status, setup);
    PhaseIrrelevant(w.memory, op.input, op.status, Renamed, setup);
    ReplaySnoc(start, w.ledger, Logged(op.input, op.status.at, false), setup);
    assert v.ledger[..|w.ledger|] == w.ledger;
  }

  lemma PhaseIrrelevant(state: State, input: RawSubmission, status: Status, phase: Phase, setup: Setup)
    requires status.Persisting?
    ensures Prepared(state, input, status.(phase := phase), setup) == Prepared(state, input, status, setup)
  {
  }

  lemma InvCommit(w: World, start: State, setup: Setup, i: nat)
    requires setup.maxChanges >= 0
    requires Inv(w, start, setup) && Enabled(w, Commit(i), setup)
    ensures Inv(Step(w, Commit(i), setup), start, setup)
  {
    hide Fold, Head, MemoryIsFold, RecordOf, After, Replay, AnswersOf, Loaded, Kept, Acked;
    ActsAtHead(w, i);
    var v := Step(w, Commit(i), setup);
    var op := w.ops[i];
    HeadAfter(w, i, v.ops[i].status);
    PreparedAfter(w.memory, op.input, op.status, setup);
    FoldKept(w, i, v.ops[i].status, v.memory, setup);
    MemoryFramed(WithStatus(w, i, v.ops[i].status).(memory := v.memory), v, setup);
    ReplayAcked(start, w.ledger, setup, op.status.ack);
  }

  lemma InvFailed(w: World, start: State, setup: Setup, i: nat)
    requires Inv(w, start, setup) && Enabled(w, IoFailed(i), setup)
    ensures Inv(Step(w, IoFailed(i), setup), start, setup)
  {
    hide After, Answered, RecordOf, Loaded, Replay, AnswersOf, Kept, Fold, Head, MemoryIsFold;
    ActsAtHead(w, i);
    HeadAfter(w, i, Failed);
    FoldKept(w, i, Failed, w.memory, setup);
    MemoryFramed(WithStatus(w, i, Failed).(memory := w.memory), Step(w, IoFailed(i), setup), setup);
  }

  lemma InvCrash(w: World, start: State, setup: Setup)
    requires setup.maxChanges >= 0
    requires Inv(w, start, setup) && Enabled(w, Crash, setup)
    ensures Inv(Step(w, Crash, setup), start, setup)
  {
    hide SliceLast, RecordOf, Replay, AnswersOf;
    LoadedIsKept(w.file, setup.maxChanges);
  }

  lemma LoadedIsKept(file: File, maxChanges: int)
    requires maxChanges >= 0 && file != Torn
    ensures Kept(Loaded(file, maxChanges).value, maxChanges)
  {
    if file.Complete? { TrimAgain(file.state.changes, maxChanges); }
  }

  lemma InvStep(w: World, start: State, setup: Setup, e: Event)
    requires setup.maxChanges >= 0 && Inv(w, start, setup) && Enabled(w, e, setup)
    ensures Inv(Step(w, e, setup), start, setup)
  {
    hide Inv, RecordOf, Loaded, Acked;
    match e
    case Call(input) => InvCall(w, start, setup, input);
    case Begin(i, at) => InvBegin(w, start, setup, i, at);
    case DirectoryMade(i) => InvPhase(w, start, setup, i, Writing, w.temp);
    case WrittenPartly(i) => InvPhase(w, start, setup, i, Writing, Partial); assert w.ops[i := w.ops[i]] == w.ops;
    case WrittenFully(i) => InvPhase(w, start, setup, i, Renaming, Full(w.ops[i].status.next));
    case RenameDone(i) => InvRename(w, start, setup, i);
    case Commit(i) => InvCommit(w, start, setup, i);
    case IoFailed(i) => InvFailed(w, start, setup, i);
    case Crash => InvCrash(w, start, setup);
  }

  lemma InvStarted(file: File, setup: Setup)
    requires setup.maxChanges >= 0 && file != Torn
    ensures Inv(Started(file, setup), Started(file, setup).memory, setup)
  {
    LoadedIsKept(file, setup.maxChanges);
  }

  lemma {:induction false} InvRun(file: File, es: seq<Event>, setup: Setup)
    requires setup.maxChanges >= 0 && file != Torn
    requires Run(Started(file, setup), es, setup).Some?
    ensures Inv(Run(Started(file, setup), es, setup).value, Started(file, setup).memory, setup)
  {
    hide Inv, Step, Enabled, Started;
    InvStarted(file, setup);
    if es != [] {
      var n := |es| - 1;
      InvRun(file, es[..n], setup);
      InvStep(Run(Started(file, setup), es[..n], setup).value, Started(file, setup).memory, setup, es[n]);
    }
  }

  // ------------------------------------------------------------------ every run

  ghost predicate Reached(file: File, es: seq<Event>, setup: Setup, w: World) {
    file != Torn && Run(Started(file, setup), es, setup) == Some(w)
  }

  /** Over every interleaving of calls, rejections, failures and crashes: one operation at most is
      persisting, everything before it has settled, nothing after it has begun. */
  lemma OneWriterAtATime(file: File, es: seq<Event>, setup: Setup, w: World, i: nat)
    requires setup.maxChanges >= 0 && Reached(file, es, setup, w)
    requires i < |w.ops| && w.ops[i].status.Persisting?
    ensures forall j :: 0 <= j < i ==> Settled(w.ops[j])
    ensures forall j :: i < j < |w.ops| ==> w.ops[j].status.Waiting?
  {
    hide Run, Started, MemoryIsFold, DiskAgrees, HistoryAgrees, WriteInProgress;
    InvRun(file, es, setup);
    ActsAtHead(w, i);
  }

  /** Memory is the left fold of the successful records in call order, and each successful record was
      answered what the sequential store answers at its place. */
  lemma MemoryIsCallOrderFold(file: File, es: seq<Event>, setup: Setup, w: World)
    requires setup.maxChanges >= 0 && Reached(file, es, setup, w)
    ensures w.memory == Fold(w.base, w.ops, setup)
    ensures forall i :: 0 <= i < |w.ops| && w.ops[i].status.Fulfilled? ==>
      var r := RecordOf(Fold(w.base, w.ops[..i], setup), w.ops[i].input, w.ops[i].status.time, setup);
      r.Accepted? && r.value.ack == w.ops[i].status.answer
  {
    hide Run, Started, Fold, RecordOf, DiskAgrees, HistoryAgrees, WriteInProgress, QueueInOrder;
    InvRun(file, es, setup);
    assert MemoryIsFold(w, setup);
    forall i | 0 <= i < |w.ops| && w.ops[i].status.Fulfilled?
      ensures var r := RecordOf(Fold(w.base, w.ops[..i], setup), w.ops[i].input, w.ops[i].status.time, setup);
              r.Accepted? && r.value.ack == w.ops[i].status.answer
    {
      assert Answered(Fold(w.base, w.ops[..i], setup), w.ops[i].input, w.ops[i].status, setup);
    }
  }

  /** Operation i has its file in place, and that file is what recording its input over the committed
      state gives. */
  ghost predicate AboutToCommit(w: World, i: nat, setup: Setup) {
    && InPhase(w, i, Renamed)
    && var op := w.ops[i];
       && Loaded(w.file, setup.maxChanges) == Accepted(op.status.next)
       && RecordOf(w.memory, op.input, op.status.at, setup) == Accepted(Done(op.status.next, op.status.ack))
  }

  /** At every moment the file holds a whole state: the committed one, or the one the operation at the
      head is about to commit. A load never fails. */
  lemma FileIsCommittedOrNext(file: File, es: seq<Event>, setup: Setup, w: World)
    requires setup.maxChanges >= 0 && Reached(file, es, setup, w)
    ensures w.file != Torn
    ensures Loaded(w.file, setup.maxChanges) == Accepted(w.memory) ||
            exists i: nat :: AboutToCommit(w, i, setup)
  {
    hide Run, Started, RecordOf, MemoryIsFold, HistoryAgrees, QueueInOrder, Kept;
    InvRun(file, es, setup);
    if Active(w) && Current(w).phase == Renamed {
      assert AboutToCommit(w, Head(w.ops), setup);
    }
  }

  /** The second ledger extends the first, and no acknowledgement is taken back. */
  ghost predicate Keeps(before: seq<Logged>, after: seq<Logged>) {
    && |before| <= |after|
    && forall i :: 0 <= i < |before| ==>
        after[i].input == before[i].input && after[i].at == before[i].at && (before[i].acked ==> after[i].acked)
  }

  lemma LedgerStep(w: World, e: Event, setup: Setup)
    requires Enabled(w, e, setup)
    ensures Keeps(w.ledger, Step(w, e, setup).ledger)
  {
    hide RecordOf, Loaded;
  }

  lemma {:induction false} LedgerGrows(w: World, es: seq<Event>, n: nat, setup: Setup)
    requires n <= |es| && Run(w, es, setup).Some?
    ensures Run(w, es[..n], setup).Some? && Keeps(Run(w, es[..n], setup).value.ledger, Run(w, es, setup).value.ledger)
    decreases |es|
  {
    hide Step, Enabled;
    if n < |es| {
      var m := |es| - 1;
      LedgerGrows(w, es[..m], n, setup);
      LedgerStep(Run(w, es[..m], setup).value, es[m], setup);
      assert es[..m][..n] == es[..n];
    } else {
      assert es[..n] == es;
    }
  }

  /** What is on disk is the replay of the records that reached it; the answers ever given are the
      sequential store's answers to the acknowledged ones; and an acknowledged record stays in that
      list whatever happens later, so a load after any crash includes it. */
  lemma NoAcknowledgedRecordLost(file: File, es: seq<Event>, n: nat, setup: Setup, w: World)
    requires setup.maxChanges >= 0 && Reached(file, es, setup, w) && n <= |es|
    ensures var start := Started(file, setup).memory;
            && Loaded(w.file, setup.maxChanges) == Accepted(Replay(start, w.ledger, setup))
            && w.answers == AnswersOf(start, w.ledger, setup)
    ensures var earlier := Run(Started(file, setup), es[..n], setup);
            earlier.Some? && Keeps(earlier.value.ledger, w.ledger)
  {
    hide Run, Started, RecordOf, MemoryIsFold, QueueInOrder, Kept, Loaded, Replay, AnswersOf, Keeps, WriteInProgress;
    InvRun(file, es, setup);
    LedgerGrows(Started(file, setup), es, n, setup);
  }

  // ------------------------------------------------------------------ progress

  function Left(status: Status): nat {
    match status
    case Waiting => 5
    case Persisting(MakingDirectory, _, _, _) => 4
    case Persisting(Writing, _, _, _) => 3
    case Persisting(Renaming, _, _, _) => 2
    case Persisting(Renamed, _, _, _) => 1
    case _ => 0
  }

  function Work(ops: seq<Op>): nat {
    if ops == [] then 0 else Work(ops[..|ops| - 1]) + Left(ops[|ops| - 1].status)
  }

  lemma {:induction false} WorkFalls(ops: seq<Op>, i: nat, op: Op)
    requires i < |ops| && Left(op.status) < Left(ops[i].status)
    ensures Work(ops[i := op]) < Work(ops)
    decreases |ops|
  {
    hide Left;
    var n := |ops| - 1;
    if i < n {
      WorkFalls(ops[..n], i, op);
      assert ops[i := op][..n] == ops[..n][i := op];
    } else {
      assert ops[i := op][..n] == ops[..n];
    }
  }

  /** What the operation at the head does next when its input or output succeeds. */
  function NextEvent(w: World, at: string): Event
    requires Head(w.ops) < |w.ops|
  {
    var i := Head(w.ops);
    match w.ops[i].status
    case Persisting(MakingDirectory, _, _, _) => DirectoryMade(i)
    case Persisting(Writing, _, _, _) => WrittenFully(i)
    case Persisting(Renaming, _, _, _) => RenameDone(i)
    case Persisting(Renamed, _, _, _) => Commit(i)
    case _ => Begin(i, at)
  }

  /** The events that finish what is pending, without new calls, failures or crashes. */
  ghost predicate Quiet(es: seq<Event>) {
    forall e :: e in es ==> !e.Call? && !e.IoFailed? && !e.Crash?
  }

  lemma Progress(w: World, start: State, setup: Setup, at: string)
    requires Inv(w, start, setup) && Head(w.ops) < |w.ops|
    ensures Enabled(w, NextEvent(w, at), setup) && Quiet([NextEvent(w, at)])
    ensures var v := Step(w, NextEvent(w, at), setup);
            |v.ops| == |w.ops| && Work(v.ops) < Work(w.ops)
  {
    hide RecordOf, MemoryIsFold, HistoryAgrees, DiskAgrees, Work;
    var i := Head(w.ops);
    var v := Step(w, NextEvent(w, at), setup);
    WorkFalls(w.ops, i, v.ops[i]);
    assert v.ops == w.ops[i := v.ops[i]];
  }

  lemma {:induction false} RunCons(w: World, e: Event, es: seq<Event>, setup: Setup)
    requires Enabled(w, e, setup)
    ensures Run(w, [e] + es, setup) == Run(Step(w, e, setup), es, setup)
  {
    hide Enabled, Step;
    assert Run(w, [], setup) == Some(w);
    if es == [] {
      assert ([e] + es)[..0] == [];
    } else {
      var n := |es| - 1;
      assert ([e] + es)[..|[e] + es| - 1] == [e] + es[..n];
      RunCons(w, e, es[..n], setup);
    }
  }

  lemma {:induction false} EveryoneSettles(w: World, start: State, setup: Setup, at: string) returns (es: seq<Event>)
    requires setup.maxChanges >= 0 && Inv(w, start, setup)
    ensures Quiet(es) && Run(w, es, setup).Some?
    ensures var v := Run(w, es, setup).value; |v.ops| == |w.ops| && forall i :: 0 <= i < |v.ops| ==> Settled(v.ops[i])
    decreases Work(w.ops)
  {
    hide Step, Enabled, NextEvent, Inv, Work, Head;
    if Head(w.ops) == |w.ops| {
      es := [];
    } else {
      var e := NextEvent(w, at);
      Progress(w, start, setup, at);
      InvStep(w, start, setup, e);
      var rest := EveryoneSettles(Step(w, e, setup), start, setup, at);
      RunCons(w, e, rest, setup);
      es := [e] + rest;
    }
  }

  /** A failed or rejected record blocks nobody: from every world a run can reach, if the disk answers
      from then on, every pending operation settles. */
  lemma NobodyIsBlocked(file: File, es: seq<Event>, setup: Setup, w: World, at: string) returns (more: seq<Event>)
    requires setup.maxChanges >= 0 && Reached(file, es, setup, w)
    ensures Quiet(more) && Run(w, more, setup).Some?
    ensures var v := Run(w, more, setup).value; |v.ops| == |w.ops| && forall i :: 0 <= i < |v.ops| ==> Settled(v.ops[i])
  {
    hide Inv, Run, Settled;
    InvRun(file, es, setup);
    more := EveryoneSettles(w, Started(file, setup).memory, setup, at);
  }

  /** A record that fails, by rejection or on the disk, leaves no trace but its own outcome, and the
      next one in the queue can begin. */
  lemma FailureLeavesNoTrace(file: File, es: seq<Event>, setup: Setup, w: World, e: Event, at: string)
    requires setup.maxChanges >= 0 && Reached(file, es, setup, w) && Enabled(w, e, setup)
    requires e.IoFailed? || (e.Begin? && RecordOf(w.memory, w.ops[e.i].input, e.at, setup).Rejected?)
    ensures var v := Step(w, e, setup);
            && v.ops == w.ops[e.i := Op(w.ops[e.i].input, Failed)]
            && v.memory == w.memory && v.file == w.file && v.ledger == w.ledger && v.answers == w.answers
            && Loaded(v.file, setup.maxChanges) == Accepted(w.memory)
            && (e.i + 1 < |v.ops| ==> Enabled(v, Begin(e.i + 1, at), setup))
  {
    hide Run, Started, RecordOf, MemoryIsFold, HistoryAgrees, WriteInProgress, Loaded;
    InvRun(file, es, setup);
    ActsAtHead(w, e.i);
  }

  // ------------------------------------------------------------------ what the states look like

  /** Every entry of `latest` sits under its own family key and is a canonical snapshot. */
  ghost predicate Keyed(state: State, cfg: Config) {
    forall k :: k in state.latest ==> state.latest[k].browser.key == k && CanonicalSnapshot(state.latest[k], cfg)
  }

  lemma AfterKeyed(state: State, input: RawSubmission, at: string, setup: Setup)
    requires Keyed(state, setup.cfg)
    ensures Keyed(After(state, input, at, setup), setup.cfg)
  {
    hide CanonicalSnapshot, LogAfter, SubmissionOf, IsChange, DiffOf;
    var current := SubmissionOf(input, at, setup.requireGrease, setup.cfg);
    if current.Accepted? {
      AcceptedIsCanonical(input, at, setup.requireGrease, setup.cfg);
    }
  }

  lemma {:induction false} ReplayKeyed(start: State, ledger: seq<Logged>, setup: Setup)
    requires Keyed(start, setup.cfg)
    ensures Keyed(Replay(start, ledger, setup), setup.cfg)
  {
    hide After, Keyed;
    if ledger != [] {
      var n := |ledger| - 1;
      ReplayKeyed(start, ledger[..n], setup);
      AfterKeyed(Replay(start, ledger[..n], setup), ledger[n].input, ledger[n].at, setup);
    }
  }

  lemma LatestUnderOwnKey(file: File, es: seq<Event>, setup: Setup, w: World)
    requires setup.maxChanges >= 0 && Reached(file, es, setup, w)
    requires file.Complete? ==> Keyed(file.state, setup.cfg)
    ensures Keyed(w.memory, setup.cfg)
    ensures Loaded(w.file, setup.maxChanges).Accepted? && Keyed(Loaded(w.file, setup.maxChanges).value, setup.cfg)
  {
    hide Run, RecordOf, MemoryIsFold, QueueInOrder, Kept, CanonicalSnapshot, Replay, SliceLast, WriteInProgress, After;
    InvRun(file, es, setup);
    var start := Started(file, setup).memory;
    ReplayKeyed(start, w.ledger, setup);
    if w.ledger != [] { ReplayKeyed(start, w.ledger[..|w.ledger| - 1], setup); }
  }

  // ------------------------------------------------------------------ the latest result of each family

  /** The results of a list of records in order, with none where there is no accepted result. */
  function OpResults(ops: seq<Op>, setup: Setup): (r: seq<Option<Snapshot>>)
    ensures |r| == |ops|
  {
    seq(|ops|, i requires 0 <= i < |ops| =>
        if ops[i].status.Fulfilled? then ResultAt(ops[i].input, ops[i].status.time, setup) else None)
  }

  function LedgerResults(ledger: seq<Logged>, setup: Setup): (r: seq<Option<Snapshot>>)
    ensures |r| == |ledger|
  {
    seq(|ledger|, i requires 0 <= i < |ledger| => ResultAt(ledger[i].input, ledger[i].at, setup))
  }

  function ResultAt(input: RawSubmission, at: string, setup: Setup): Option<Snapshot> {
    match SubmissionOf(input, at, setup.requireGrease, setup.cfg)
    case Accepted(s) => Some(s)
    case Rejected => None
  }

  predicate OfFamily(result: Option<Snapshot>, key: string) {
    result.Some? && result.value.browser.key == key
  }

  predicate LastOfFamily(results: seq<Option<Snapshot>>, key: string, i: int) {
    0 <= i < |results| && OfFamily(results[i], key) && forall j :: i < j < |results| ==> !OfFamily(results[j], key)
  }

  /** Under each family key the last result of that family, or the first entry where there is none. */
  ghost predicate HoldsLast(latest: map<string, Snapshot>, first: map<string, Snapshot>,
                            results: seq<Option<Snapshot>>, key: string)
  {
    && (forall i :: LastOfFamily(results, key, i) ==> key in latest && latest[key] == results[i].value)
    && ((forall i :: 0 <= i < |results| ==> !OfFamily(results[i], key)) ==>
          (key in latest <==> key in first) && (key in first ==> latest[key] == first[key]))
  }

  lemma HoldsLastSnoc(latest: map<string, Snapshot>, first: map<string, Snapshot>,
                      results: seq<Option<Snapshot>>, key: string, r: Option<Snapshot>)
    requires HoldsLast(latest, first, results, key)
    ensures HoldsLast(if r.Some? then latest[r.value.browser.key := r.value] else latest, first, results + [r], key)
  {
    var all := results + [r];
    if OfFamily(r, key) {
      assert OfFamily(all[|results|], key);
    } else {
      forall i | LastOfFamily(all, key, i) ensures LastOfFamily(results, key, i) {
        forall j | i < j < |results| ensures !OfFamily(results[j], key) { assert all[j] == results[j]; }
      }
      if forall i :: 0 <= i < |all| ==> !OfFamily(all[i], key) {
        forall i | 0 <= i < |results| ensures !OfFamily(results[i], key) { assert all[i] == results[i]; }
      }
    }
  }

  lemma AfterLatest(state: State, input: RawSubmission, at: string, setup: Setup)
    ensures var r := ResultAt(input, at, setup);
            After(state, input, at, setup).latest ==
            if r.Some? then state.latest[r.value.browser.key := r.value] else state.latest
  {
    hide SubmissionOf, LogAfter, IsChange, DiffOf;
  }

  lemma {:induction false} FoldHoldsLast(base: State, ops: seq<Op>, setup: Setup, key: string)
    ensures HoldsLast(Fold(base, ops, setup).latest, base.latest, OpResults(ops, setup), key)
  {
    hide HoldsLast, After, ResultAt;
    if ops == [] {
      NoneYet(base.latest, key);
    } else {
      var n := |ops| - 1;
      FoldHoldsLast(base, ops[..n], setup, key);
      var before := Fold(base, ops[..n], setup);
      var r := OpResults(ops, setup)[n];
      assert OpResults(ops, setup) == OpResults(ops[..n], setup) + [r];
      HoldsLastSnoc(before.latest, base.latest, OpResults(ops[..n], setup), key, r);
      if ops[n].status.Fulfilled? { AfterLatest(before, ops[n].input, ops[n].status.time, setup); }
    }
  }

  lemma {:induction false} ReplayHoldsLast(start: State, ledger: seq<Logged>, setup: Setup, key: string)
    ensures HoldsLast(Replay(start, ledger, setup).latest, start.latest, LedgerResults(ledger, setup), key)
  {
    hide HoldsLast, After, ResultAt;
    if ledger == [] {
      NoneYet(start.latest, key);
    } else {
      var n := |ledger| - 1;
      ReplayHoldsLast(start, ledger[..n], setup, key);
      var before := Replay(start, ledger[..n], setup);
      var r := LedgerResults(ledger, setup)[n];
      assert LedgerResults(ledger, setup) == LedgerResults(ledger[..n], setup) + [r];
      HoldsLastSnoc(before.latest, start.latest, LedgerResults(ledger[..n], setup), key, r);
      AfterLatest(before, ledger[n].input, ledger[n].at, setup);
    }
  }

  lemma NoneYet(first: map<string, Snapshot>, key: string)
    ensures HoldsLast(first, first, [], key)
  {
  }

  /** In every run, memory holds under each family key the result of the last fulfilled record of that
      family in call order, and what was loaded where there is none; and a load at that moment finds
      the result of the last record of the family that reached the disk. */
  lemma LatestIsLastRecord(file: File, es: seq<Event>, setup: Setup, w: World, key: string)
    requires setup.maxChanges >= 0 && Reached(file, es, setup, w)
    ensures HoldsLast(w.memory.latest, w.base.latest, OpResults(w.ops, setup), key)
    ensures Loaded(w.file, setup.maxChanges).Accepted?
    ensures HoldsLast(Loaded(w.file, setup.maxChanges).value.latest, Started(file, setup).memory.latest,
                      LedgerResults(w.ledger, setup), key)
  {
    hide Run, Started, Loaded, RecordOf, Fold, Replay, HoldsLast, OpResults, LedgerResults, Kept, Answered,
      WriteInProgress;
    InvRun(file, es, setup);
    FoldHoldsLast(w.base, w.ops, setup, key);
    ReplayHoldsLast(Started(file, setup).memory, w.ledger, setup, key);
  }

  /** Every fulfilled record was accepted, and every record that reached the disk was. */
  lemma FulfilledIsAccepted(file: File, es: seq<Event>, setup: Setup, w: World, i: nat)
    requires setup.maxChanges >= 0 && Reached(file, es, setup, w)
    requires i < |w.ops| && w.ops[i].status.Fulfilled?
    ensures var r := OpResults(w.ops, setup)[i];
            r.Some? && r.value.browser.key == w.ops[i].status.answer.browserKey
            && r.value.receivedAt == w.ops[i].status.answer.receivedAt == w.ops[i].status.time
  {
    hide Run, Started, Loaded, SubmissionOf, Fold, Replay, Kept, WriteInProgress, QueueInOrder, DiskAgrees,
      HistoryAgrees, LogAfter, IsChange, DiffOf;
    InvRun(file, es, setup);
    assert Answered(Fold(w.base, w.ops[..i], setup), w.ops[i].input, w.ops[i].status, setup);
    ReceivedAtKept(w.ops[i].input, w.ops[i].status.time, setup);
  }

  /** All events of a history, none forgotten. */
  function History(start: State, ledger: seq<Logged>, setup: Setup): seq<Entry> {
    if ledger == [] then []
    else
      var n := |ledger| - 1;
      var current := SubmissionOf(ledger[n].input, ledger[n].at, setup.requireGrease, setup.cfg);
      History(start, ledger[..n], setup) +
      if current.Accepted? then EventOf(Replay(start, ledger[..n], setup), current.value) else []
  }

  lemma AfterLog(state: State, all: seq<Entry>, input: RawSubmission, at: string, setup: Setup)
    requires setup.maxChanges >= 0 && state.changes == SliceLast(all, setup.maxChanges)
    ensures var current := SubmissionOf(input, at, setup.requireGrease, setup.cfg);
            After(state, input, at, setup).changes ==
            SliceLast(all + (if current.Accepted? then EventOf(state, current.value) else []), setup.maxChanges)
  {
    hide SubmissionOf, DiffOf, SliceLast, IsChange, EntryFor;
    var current := SubmissionOf(input, at, setup.requireGrease, setup.cfg);
    assert all + [] == all;
    if current.Accepted? {
      TrimStep(all, EntryFor(state, current.value), setup.maxChanges);
    }
  }

  /** The bounded log refines the full history: after any records it is the last `maxChanges` events
      of all events ever, or all of them when the limit is zero. */
  lemma {:induction false} LogIsSuffixOfHistory(start: State, ledger: seq<Logged>, setup: Setup)
    requires setup.maxChanges >= 0 && Kept(start, setup.maxChanges)
    ensures Replay(start, ledger, setup).changes ==
            SliceLast(start.changes + History(start, ledger, setup), setup.maxChanges)
  {
    hide SubmissionOf, SliceLast, After, EventOf;
    if ledger == [] {
      assert start.changes + [] == start.changes;
    } else {
      var n := |ledger| - 1;
      LogIsSuffixOfHistory(start, ledger[..n], setup);
      AfterLog(Replay(start, ledger[..n], setup), start.changes + History(start, ledger[..n], setup),
               ledger[n].input, ledger[n].at, setup);
      assert start.changes + History(start, ledger, setup) ==
             start.changes + History(start, ledger[..n], setup) +
               History(start, ledger, setup)[|History(start, ledger[..n], setup)|..];
    }
  }

  /** The same of the log a load finds at any moment of any run. */
  lemma LogInEveryRun(file: File, es: seq<Event>, setup: Setup, w: World)
    requires setup.maxChanges >= 0 && Reached(file, es, setup, w)
    ensures var start := Started(file, setup).memory;
            Loaded(w.file, setup.maxChanges).Accepted? &&
            Loaded(w.file, setup.maxChanges).value.changes ==
            SliceLast(start.changes + History(start, w.ledger, setup), setup.maxChanges)
  {
    hide Run, Loaded, Replay, History, SliceLast, MemoryIsFold, QueueInOrder, WriteInProgress;
    InvRun(file, es, setup);
    InvStarted(file, setup);
    LogIsSuffixOfHistory(Started(file, setup).memory, w.ledger, setup);
  }

  /** The limit bounds the log in every run exactly when it is at least one. */
  lemma LogBoundedExactly(setup: Setup)
    ensures setup.maxChanges >= 1 <==>
      forall file, es, w :: Reached(file, es, setup, w) ==> |w.memory.changes| <= setup.maxChanges
  {
    if setup.maxChanges >= 1 {
      forall file, es, w | Reached(file, es, setup, w) ensures |w.memory.changes| <= setup.maxChanges {
        KeptIsBounded(file, es, setup, w);
      }
    } else {
      var entry := Entry("", "", "", None, Initial);
      var file := if setup.maxChanges == 0 then Complete(State(map[], [entry])) else File.Missing;
      assert Reached(file, [], setup, Started(file, setup));
    }
  }

  lemma KeptIsBounded(file: File, es: seq<Event>, setup: Setup, w: World)
    requires setup.maxChanges >= 1 && Reached(file, es, setup, w)
    ensures |w.memory.changes| <= setup.maxChanges
  {
    hide Run, Started, MemoryIsFold, HistoryAgrees, QueueInOrder, WriteInProgress, Loaded;
    InvRun(file, es, setup);
    assert |SliceLast(w.memory.changes, setup.maxChanges)| <= setup.maxChanges;
  }

  /** A negative limit is not a limit: a store that starts empty then never keeps an event. */
  lemma {:induction false} NegativeLimitKeepsNothing(start: State, ledger: seq<Logged>, setup: Setup)
    requires setup.maxChanges < 0 && start.changes == []
    ensures Replay(start, ledger, setup).changes == []
  {
    hide SubmissionOf, DiffOf, IsChange, EntryFor;
    if ledger != [] {
      NegativeLimitKeepsNothing(start, ledger[..|ledger| - 1], setup);
    }
  }

  /** A sender is told `changed` exactly when its record adds an event to the history, and then the
      answer lists what the event lists. */
  lemma ChangedIffLogged(state: State, input: RawSubmission, at: string, setup: Setup)
    requires RecordOf(state, input, at, setup).Accepted?
    ensures var current := SubmissionOf(input, at, setup.requireGrease, setup.cfg).value;
            var ack := RecordOf(state, input, at, setup).value.ack;
            var key := current.browser.key;
            && ack.browserKey == key && ack.receivedAt == at
            && ack.differences == (if key in state.latest then DiffOf(Some(state.latest[key]), current) else [])
            && (ack.changed <==> key !in state.latest || ack.differences != [])
            && ack.changed == (EventOf(state, current) != [])
            && (ack.changed ==> var e := EventOf(state, current)[0];
                                && e.at == at == ack.receivedAt && e.browserKey == ack.browserKey
                                && e.browserName == current.browser.name && e.browserVersion == current.browser.version
                                && (if e.what.Initial? then ack.browserKey !in state.latest && ack.differences == []
                                    else ack.differences == e.what.lines != []))
  {
    hide SubmissionOf, SliceLast, DiffOf;
    ReceivedAtKept(input, at, setup);
    NoDifferencesToNothing(SubmissionOf(input, at, setup.requireGrease, setup.cfg).value);
  }

  lemma NoDifferencesToNothing(current: Snapshot)
    ensures DiffOf(None, current) == []
  {
  }
}
