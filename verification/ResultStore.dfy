/** The store object itself. Each `await` of `record` and `persist` ends one method and begins the
    next, and every method is one step of the abstract machine. */
module ResultStores {
  import opened Lists
  import opened Results
  import opened Store

  class ResultStore {
    const setup: Setup
    /** `state` of the closure */
    var state: State
    /** the promise chain: `writeQueue` is its last element */
    var queue: seq<Op>
    var file: File
    var temporary: Temp
    ghost var base: State
    ghost var ledger: seq<Logged>
    ghost var answers: seq<Ack>

    ghost function AsWorld(): World
      reads this
    {
      World(state, file, temporary, queue, base, ledger, answers)
    }

    /** A new process over the disk an earlier one may have left behind. */
    constructor (setup: Setup, found: File, ghost written: seq<Logged>, ghost told: seq<Ack>)
      ensures this.setup == setup && AsWorld() == World(EMPTY, found, NoTemp, [], EMPTY, written, told)
    {
      this.setup := setup;
      state, queue, file, temporary := EMPTY, [], found, NoTemp;
      base, ledger, answers := EMPTY, written, told;
    }

    method Load() returns (ok: bool)
      requires queue == [] && state == base == EMPTY && temporary == NoTemp
      modifies this
      ensures ok == Loaded(old(file), setup.maxChanges).Accepted?
      ensures !ok ==> AsWorld() == old(AsWorld())
      ensures ok ==>
        var loaded := Loaded(old(file), setup.maxChanges).value;
        AsWorld() == World(loaded, old(file), NoTemp, [], loaded, old(ledger), old(answers))
    {
      match file {
        case Missing =>
        case Torn => return false;
        case Complete(parsed) =>
          state := State(parsed.latest, SliceLast(parsed.changes, setup.maxChanges));
      }
      base := state;
      return true;
    }

    /** `record`: only appends to the chain. */
    method Record(input: RawSubmission) returns (i: nat)
      modifies this`queue
      ensures i == |old(queue)| && AsWorld() == Step(old(AsWorld()), Call(input), setup)
    {
      i := |queue|;
      queue := queue + [Op(input, Waiting)];
    }

    /** The operation up to its first `await`. */
    method StartOperation(i: nat, at: string)
      requires Distinct(setup.cfg.paths) && Enabled(AsWorld(), Begin(i, at), setup)
      modifies this`queue
      ensures AsWorld() == Step(old(AsWorld()), Begin(i, at), setup)
    {
      hide RecordOf;
      var prepared := Prepare(state, queue[i].input, at, setup);
      if prepared.Rejected? {
        queue := queue[i := Op(queue[i].input, Failed)];
      } else {
        queue := queue[i := Op(queue[i].input,
                               Persisting(MakingDirectory, at, prepared.value.next, prepared.value.ack))];
      }
    }

    method MakeDirectory(i: nat)
      requires Enabled(AsWorld(), DirectoryMade(i), setup)
      modifies this`queue
      ensures AsWorld() == Step(old(AsWorld()), DirectoryMade(i), setup)
    {
      queue := queue[i := Op(queue[i].input, queue[i].status.(phase := Writing))];
    }

    method WriteTemporary(i: nat)
      requires Enabled(AsWorld(), WrittenFully(i), setup)
      modifies this`queue, this`temporary
      ensures AsWorld() == Step(old(AsWorld()), WrittenFully(i), setup)
    {
      temporary := Full(queue[i].status.next);
      queue := queue[i := Op(queue[i].input, queue[i].status.(phase := Renaming))];
    }

    method RenameTemporary(i: nat)
      requires Enabled(AsWorld(), RenameDone(i), setup)
      modifies this`queue, this`temporary, this`file, this`ledger
      ensures AsWorld() == Step(old(AsWorld()), RenameDone(i), setup)
    {
      file := if temporary.Full? then Complete(temporary.content) else Torn;
      temporary := NoTemp;
      ledger := ledger + [Logged(queue[i].input, queue[i].status.at, false)];
      queue := queue[i := Op(queue[i].input, queue[i].status.(phase := Renamed))];
    }

    /** `state = nextState`, and the answer. */
    method Finish(i: nat) returns (ack: Ack)
      requires Enabled(AsWorld(), Commit(i), setup)
      modifies this`state, this`queue, this`ledger, this`answers
      ensures AsWorld() == Step(old(AsWorld()), Commit(i), setup)
      ensures ack == old(queue[i].status.ack)
    {
      ack := queue[i].status.ack;
      state := queue[i].status.next;
      ledger := Acked(ledger);
      answers := answers + [ack];
      queue := queue[i := Op(queue[i].input, Fulfilled(queue[i].status.at, ack))];
    }

    /** `await persist(...)` when nothing fails, and what follows it. */
    method PersistAndFinish(i: nat) returns (ack: Ack)
      requires InPhase(AsWorld(), i, MakingDirectory)
      modifies this
      ensures file == Complete(state) && state == old(queue[i].status.next)
      ensures ack == old(queue[i].status.ack)
      ensures queue == old(queue)[i := Op(old(queue[i].input), Fulfilled(old(queue[i].status.at), ack))]
    {
      MakeDirectory(i);
      WriteTemporary(i);
      RenameTemporary(i);
      ack := Finish(i);
    }

    /** Some `await` of `persist` rejected. */
    method Fail(i: nat)
      requires Enabled(AsWorld(), IoFailed(i), setup)
      modifies this`queue
      ensures AsWorld() == Step(old(AsWorld()), IoFailed(i), setup)
    {
      queue := queue[i := Op(queue[i].input, Failed)];
    }

    /** One record from end to end on an idle store with a working disk: memory and disk move as the
        sequential specification says, and a rejected submission changes neither. */
    method RecordAlone(input: RawSubmission, at: string) returns (answer: Result<Ack>)
      requires Distinct(setup.cfg.paths) && Head(queue) == |queue|
      modifies this
      ensures var r := RecordOf(old(state), input, at, setup);
              && answer.Accepted? == r.Accepted?
              && (r.Accepted? ==>
                  answer == Accepted(r.value.ack) && state == r.value.next && file == Complete(r.value.next))
              && (r.Rejected? ==> state == old(state) && file == old(file))
      ensures Head(queue) == |queue| == |old(queue)| + 1
    {
      hide RecordOf;
      var i := Record(input);
      assert i > 0 ==> Settled(queue[i - 1]);
      StartOperation(i, at);
      if queue[i].status.Failed? {
        HeadIs(queue, |queue|);
        return Rejected;
      }
      var ack := PersistAndFinish(i);
      HeadIs(queue, |queue|);
      return Accepted(ack);
    }
  }
}
