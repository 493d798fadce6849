/** The update log of one database in a cluster: entries linked from each committed entry to the one
    added after it, and the walk a follower catches up with. */
module ClusterLogs {
  import opened Collections

  datatype Operation = Commit | Build | Cancel | Fail | Other(code: nat)

  /** `next` is 0 while no later entry is linked. */
  datatype LogInfo = LogInfo(op: Operation, next: nat, fileName: string)

  type Logs = map<nat, LogInfo>

  /** The log with the term record of the database: the last committed index and the pending one. */
  datatype State = State(logs: Logs, index: nat, nextIndex: nat)

  // ---------------------------------------------------------------- the log

  function LinkLast(logs: Logs, last: nat, index: nat): Logs {
    if last != 0 && last in logs && (logs[last].op.Commit? || logs[last].op.Build?)
    then logs[last := logs[last].(next := index)] else logs
  }

  /** ClusterDbNameLogInfo::addLog: a known index changes nothing. */
  function LogAdded(logs: Logs, index: nat, op: Operation, last: nat, fileName: string): Logs {
    if index in logs then logs else LinkLast(logs[index := LogInfo(op, 0, fileName)], last, index)
  }

  function LogUpdated(logs: Logs, index: nat, op: Operation, fileName: string): Logs {
    if index !in logs then logs
    else
      var info := logs[index].(op := op);
      logs[index := if fileName == "" then info else info.(fileName := fileName)]
  }

  // ---------------------------------------------------------------- coupled with the term record

  function Add(st: State, index: nat, op: Operation): State {
    State(LogAdded(st.logs, index, op, st.index, ""), st.index, index)
  }

  function AddCommit(st: State, index: nat, fileName: string): State {
    State(LogAdded(st.logs, index, Commit, st.index, fileName), index, 0)
  }

  function Update(st: State, index: nat, op: Operation, fileName: string): State {
    State(LogUpdated(st.logs, index, op, fileName),
          if op.Commit? then index else st.index,
          if op.Commit? || op.Cancel? || op.Fail? then 0 else st.nextIndex)
  }

  // ---------------------------------------------------------------- links go forward

  /** `order` lists the entries as they were created; every link leads to a later one. */
  ghost predicate Forward(logs: Logs, order: seq<nat>) {
    NoDup(order) && (forall i :: i in logs <==> i in order) &&
    forall i :: i in logs && logs[i].next != 0 ==> After(logs, order, i)
  }

  ghost predicate After(logs: Logs, order: seq<nat>, i: nat)
    requires i in logs
  {
    exists a, b :: 0 <= a < b < |order| && order[a] == i && order[b] == logs[i].next
  }

  lemma AfterMore(logs: Logs, order: seq<nat>, i: nat, more: nat)
    requires i in logs && After(logs, order, i)
    ensures After(logs, order + [more], i)
  {
    var a, b :| 0 <= a < b < |order| && order[a] == i && order[b] == logs[i].next;
    assert (order + [more])[a] == i && (order + [more])[b] == logs[i].next;
  }

  /** Adding an entry, even while others are pending, keeps every link forward. */
  lemma AddForward(logs: Logs, order: seq<nat>, index: nat, op: Operation, last: nat, fileName: string)
    requires Forward(logs, order) && index !in logs && (last == 0 || last != index)
    ensures Forward(LogAdded(logs, index, op, last, fileName), order + [index])
  {
    var next, more := LogAdded(logs, index, op, last, fileName), order + [index];
    NoDupSplit(order, [index]);
    forall i | i in next && next[i].next != 0
      ensures After(next, more, i)
    {
      if i != last || next[i].next != index {
        AfterMore(logs, order, i, index);
        var a, b :| 0 <= a < b < |more| && more[a] == i && more[b] == logs[i].next;
        assert next[i].next == logs[i].next;
      } else {
        var a := Pos(order, i);
        assert more[a] == i && more[|order|] == index;
      }
    }
  }

  lemma UpdateForward(logs: Logs, order: seq<nat>, index: nat, op: Operation, fileName: string)
    requires Forward(logs, order)
    ensures Forward(LogUpdated(logs, index, op, fileName), order)
  {
    var next := LogUpdated(logs, index, op, fileName);
    forall i | i in next && next[i].next != 0
      ensures After(next, order, i)
    {
      assert After(logs, order, i);
      var a, b :| 0 <= a < b < |order| && order[a] == i && order[b] == logs[i].next;
      assert next[i].next == order[b];
    }
  }

  // ---------------------------------------------------------------- the walk

  /** Whether the walk goes on from an entry. */
  predicate GoesOn(logs: Logs, i: nat) {
    i in logs && logs[i].next != 0 && logs[i].fileName != "" && logs[i].op.Commit?
  }

  /** What is left of the creation order from an entry on: it shrinks along every link. */
  ghost function Left(order: seq<nat>, i: nat): nat {
    if i in order then |order| - Pos(order, i) else 0
  }

  lemma PosOf(order: seq<nat>, a: nat)
    requires NoDup(order) && a < |order|
    ensures Pos(order, order[a]) == a
  {
  }

  lemma LinkShrinks(logs: Logs, order: seq<nat>, i: nat)
    requires Forward(logs, order) && GoesOn(logs, i)
    ensures Left(order, logs[i].next) < Left(order, i)
  {
    assert After(logs, order, i);
    var a, b :| 0 <= a < b < |order| && order[a] == i && order[b] == logs[i].next;
    PosOf(order, a);
    PosOf(order, b);
  }

  /** The pairs the walk lists: the next index, with the file name of the entry it comes from. */
  ghost function Walk(logs: Logs, order: seq<nat>, i: nat): seq<(nat, string)>
    requires Forward(logs, order)
    decreases Left(order, i)
  {
    if !GoesOn(logs, i) then []
    else
      LinkShrinks(logs, order, i);
      [(logs[i].next, logs[i].fileName)] + Walk(logs, order, logs[i].next)
  }

  /** The entry the k-th pair comes from. */
  function EntryAt(index: nat, pairs: seq<(nat, string)>, k: nat): nat
    requires k <= |pairs|
  {
    if k == 0 then index else pairs[k - 1].0
  }

  /** The pair is the link of a committed entry that has a file. */
  predicate LinkOf(logs: Logs, i: nat, pair: (nat, string)) {
    i in logs && logs[i] == LogInfo(Commit, pair.0, pair.1) && pair.0 != 0 && pair.1 != ""
  }

  /** Each pair is the link of the entry before it, and the entry at the end has none to give. */
  ghost predicate Follows(logs: Logs, index: nat, pairs: seq<(nat, string)>) {
    (forall k :: 0 <= k < |pairs| ==> LinkOf(logs, EntryAt(index, pairs, k), pairs[k])) &&
    forall pair :: !LinkOf(logs, EntryAt(index, pairs, |pairs|), pair)
  }

  lemma {:induction false} WalkFollows(logs: Logs, order: seq<nat>, i: nat)
    requires Forward(logs, order)
    ensures Follows(logs, i, Walk(logs, order, i))
    decreases Left(order, i)
  {
    if GoesOn(logs, i) {
      LinkShrinks(logs, order, i);
      WalkFollows(logs, order, logs[i].next);
      var rest, pairs := Walk(logs, order, logs[i].next), Walk(logs, order, i);
      assert pairs == [(logs[i].next, logs[i].fileName)] + rest;
      forall k | 0 <= k < |pairs|
        ensures LinkOf(logs, EntryAt(i, pairs, k), pairs[k])
      {
        if k > 0 {
          assert EntryAt(i, pairs, k) == EntryAt(logs[i].next, rest, k - 1) && pairs[k] == rest[k - 1];
        }
      }
      assert EntryAt(i, pairs, |pairs|) == EntryAt(logs[i].next, rest, |rest|);
    }
  }

  /** getNextIndexL: the loop ends on every log whose links go forward. */
  method GetNextIndexL(logs: Logs, index: nat, ghost order: seq<nat>) returns (indexl: seq<(nat, string)>)
    requires Forward(logs, order)
    ensures indexl == Walk(logs, order, index) && Follows(logs, index, indexl)
  {
    indexl := [];
    var local := index;
    while true
      invariant Walk(logs, order, index) == indexl + Walk(logs, order, local)
      decreases Left(order, local)
    {
      if local !in logs {
        break;
      }
      var next, fileName := logs[local].next, logs[local].fileName;
      if next == 0 || fileName == "" || !logs[local].op.Commit? {
        break;
      }
      LinkShrinks(logs, order, local);
      indexl := indexl + [(next, fileName)];
      local := next;
    }
    assert indexl + [] == indexl;
    WalkFollows(logs, order, index);
  }

  // ---------------------------------------------------------------- runs

  datatype Step =
    | Begin(i: nat, op: Operation)
    | Progress(i: nat, code: nat)
    | CommitEntry(i: nat, fileName: string)
    | CancelEntry(i: nat, failed: bool)
    | CommitNew(i: nat, fileName: string)

  predicate Uncommitted(st: State, i: nat) {
    i in st.logs && !st.logs[i].op.Commit?
  }

  /** A new entry has a fresh index, any number of others may be pending, and any entry not yet
      committed may change its state; committed entries have file names. */
  predicate StepOk(st: State, step: Step) {
    match step
    case Begin(i, op) => i != 0 && i !in st.logs && !op.Commit? && !op.Build?
    case Progress(i, _) => Uncommitted(st, i)
    case CommitEntry(i, fileName) => Uncommitted(st, i) && fileName != ""
    case CancelEntry(i, _) => Uncommitted(st, i)
    case CommitNew(i, fileName) => i != 0 && i !in st.logs && fileName != ""
  }

  function Apply(st: State, step: Step): State {
    match step
    case Begin(i, op) => Add(st, i, op)
    case Progress(i, code) => Update(st, i, Other(code), "")
    case CommitEntry(i, fileName) => Update(st, i, Commit, fileName)
    case CancelEntry(i, failed) => Update(st, i, if failed then Fail else Cancel, "")
    case CommitNew(i, fileName) => AddCommit(st, i, fileName)
  }

  /** What a run has done: the committed indices in commit order, the entry added last since the last
      commit, and all entries in the order of their creation. */
  datatype History = History(committed: seq<nat>, tail: nat, order: seq<nat>)

  function Record(h: History, step: Step): History {
    match step
    case Begin(i, _) => History(h.committed, i, h.order + [i])
    case Progress(_, _) => h
    case CommitEntry(i, _) => History(h.committed + [i], 0, h.order)
    case CancelEntry(_, _) => h
    case CommitNew(i, _) => History(h.committed + [i], 0, h.order + [i])
  }

  const START := State(map[], 0, 0)
  const NOTHING := History([], 0, [])

  ghost predicate RunOk(steps: seq<Step>) {
    steps == [] || (RunOk(steps[..|steps| - 1]) && StepOk(Run(steps[..|steps| - 1]), steps[|steps| - 1]))
  }

  function Run(steps: seq<Step>): State {
    if steps == [] then START else Apply(Run(steps[..|steps| - 1]), steps[|steps| - 1])
  }

  function Recorded(steps: seq<Step>): History {
    if steps == [] then NOTHING else Record(Recorded(steps[..|steps| - 1]), steps[|steps| - 1])
  }

  /** A commit is in order: it is the first, or it is of the entry added last since the last commit. */
  predicate InOrder(h: History, step: Step) {
    step.CommitEntry? ==> h.committed == [] || step.i == h.tail
  }

  predicate Orderly(steps: seq<Step>) {
    steps == [] || (Orderly(steps[..|steps| - 1]) && InOrder(Recorded(steps[..|steps| - 1]), steps[|steps| - 1]))
  }

  // ---------------------------------------------------------------- the chain of an orderly run

  /** Entry k of the chain: committed, named, and linked to the one committed after it or, at the
      end, to the entry added last. */
  ghost predicate LinkAt(logs: Logs, h: History, k: nat)
    requires k < |h.committed|
  {
    var i := h.committed[k];
    i in logs && logs[i].op.Commit? && logs[i].fileName != "" &&
    logs[i].next == if k + 1 < |h.committed| then h.committed[k + 1] else h.tail
  }

  /** An entry that is not committed is linked to nothing. */
  ghost predicate Loose(logs: Logs, i: nat) {
    i in logs ==> logs[i].next == 0 && !logs[i].op.Commit? && !logs[i].op.Build?
  }

  ghost predicate Chain(st: State, h: History) {
    Forward(st.logs, h.order) && 0 !in st.logs && NoDup(h.committed) &&
    st.index == (if h.committed == [] then 0 else h.committed[|h.committed| - 1]) &&
    (forall k :: 0 <= k < |h.committed| ==> LinkAt(st.logs, h, k)) &&
    (forall i {:trigger Loose(st.logs, i)} :: i !in h.committed ==> Loose(st.logs, i)) &&
    (h.tail != 0 ==> h.tail in st.logs && h.tail !in h.committed)
  }

  lemma CommittedKnown(st: State, h: History, i: nat)
    requires Chain(st, h) && i in h.committed
    ensures i in st.logs && st.logs[i].op.Commit? && i != 0
  {
    assert LinkAt(st.logs, h, Pos(h.committed, i));
  }

  /** Linking the last committed entry to a new one moves only the end of the chain. */
  lemma LinkedChain(st: State, h: History, i: nat, info: LogInfo, k: nat)
    requires Chain(st, h) && i != 0 && i !in st.logs && info.next == 0 && k < |h.committed|
    ensures var logs := LinkLast(st.logs[i := info], st.index, i);
            LinkAt(logs, History(h.committed, i, h.order + [i]), k)
  {
    assert LinkAt(st.logs, h, k);
    assert LinkAt(st.logs, h, |h.committed| - 1);
  }

  lemma LinkedLoose(st: State, h: History, i: nat, info: LogInfo, j: nat)
    requires Chain(st, h) && i != 0 && i !in st.logs && j !in h.committed && j != i
    ensures Loose(LinkLast(st.logs[i := info], st.index, i), j)
  {
    assert Loose(st.logs, j);
  }

  lemma BeginChain(st: State, h: History, i: nat, op: Operation)
    requires Chain(st, h) && StepOk(st, Begin(i, op))
    ensures Chain(Apply(st, Begin(i, op)), Record(h, Begin(i, op)))
  {
    var next, h' := Apply(st, Begin(i, op)), Record(h, Begin(i, op));
    if h.committed != [] {
      CommittedKnown(st, h, st.index);
    }
    AddForward(st.logs, h.order, i, op, st.index, "");
    forall k | 0 <= k < |h.committed|
      ensures LinkAt(next.logs, h', k)
    {
      LinkedChain(st, h, i, LogInfo(op, 0, ""), k);
    }
    if i in h.committed {
      CommittedKnown(st, h, i);
    }
    forall j | j !in h.committed
      ensures Loose(next.logs, j)
    {
      if j != i {
        LinkedLoose(st, h, i, LogInfo(op, 0, ""), j);
      }
    }
  }

  lemma CommitNewChain(st: State, h: History, i: nat, fileName: string)
    requires Chain(st, h) && StepOk(st, CommitNew(i, fileName))
    ensures Chain(Apply(st, CommitNew(i, fileName)), Record(h, CommitNew(i, fileName)))
  {
    var next, h' := Apply(st, CommitNew(i, fileName)), Record(h, CommitNew(i, fileName));
    if h.committed != [] {
      CommittedKnown(st, h, st.index);
    }
    AddForward(st.logs, h.order, i, Commit, st.index, fileName);
    if i in h.committed {
      CommittedKnown(st, h, i);
    }
    NoDupSplit(h.committed, [i]);
    forall k | 0 <= k < |h'.committed|
      ensures LinkAt(next.logs, h', k)
    {
      if k < |h.committed| {
        LinkedChain(st, h, i, LogInfo(Commit, 0, fileName), k);
      }
    }
    forall j | j !in h'.committed
      ensures Loose(next.logs, j)
    {
      LinkedLoose(st, h, i, LogInfo(Commit, 0, fileName), j);
    }
  }

  /** Committing in order moves the end of the chain by one entry, however many are pending. */
  lemma CommitChain(st: State, h: History, i: nat, fileName: string)
    requires Chain(st, h) && StepOk(st, CommitEntry(i, fileName)) && InOrder(h, CommitEntry(i, fileName))
    ensures Chain(Apply(st, CommitEntry(i, fileName)), Record(h, CommitEntry(i, fileName)))
  {
    var next, h' := Apply(st, CommitEntry(i, fileName)), Record(h, CommitEntry(i, fileName));
    UpdateForward(st.logs, h.order, i, Commit, fileName);
    if i in h.committed {
      CommittedKnown(st, h, i);
    }
    assert Loose(st.logs, i);
    NoDupSplit(h.committed, [i]);
    forall k | 0 <= k < |h'.committed|
      ensures LinkAt(next.logs, h', k)
    {
      if k < |h.committed| {
        assert LinkAt(st.logs, h, k) && h.committed[k] in h.committed;
      }
    }
    forall j | j !in h'.committed
      ensures Loose(next.logs, j)
    {
      assert Loose(st.logs, j);
    }
  }

  /** An uncommitted entry changes its state. */
  lemma PendingChain(st: State, h: History, i: nat, op: Operation)
    requires Chain(st, h) && Uncommitted(st, i) && !op.Commit? && !op.Build?
    ensures Chain(Update(st, i, op, ""), h)
  {
    var next := Update(st, i, op, "");
    UpdateForward(st.logs, h.order, i, op, "");
    forall k | 0 <= k < |h.committed|
      ensures LinkAt(next.logs, h, k)
    {
      assert LinkAt(st.logs, h, k);
    }
    forall j | j !in h.committed
      ensures Loose(next.logs, j)
    {
      assert Loose(st.logs, j);
    }
  }

  /** Every step in order keeps the chain. */
  lemma StepChain(st: State, h: History, step: Step)
    requires Chain(st, h) && StepOk(st, step) && InOrder(h, step)
    ensures Chain(Apply(st, step), Record(h, step))
  {
    match step
    case Begin(i, op) => BeginChain(st, h, i, op);
    case Progress(i, code) => PendingChain(st, h, i, Other(code));
    case CommitEntry(i, fileName) => CommitChain(st, h, i, fileName);
    case CancelEntry(i, failed) => PendingChain(st, h, i, if failed then Fail else Cancel);
    case CommitNew(i, fileName) => CommitNewChain(st, h, i, fileName);
  }

  lemma {:induction false} RunChain(steps: seq<Step>)
    requires RunOk(steps) && Orderly(steps)
    ensures Chain(Run(steps), Recorded(steps))
  {
    if steps != [] {
      RunChain(steps[..|steps| - 1]);
      StepChain(Run(steps[..|steps| - 1]), Recorded(steps[..|steps| - 1]), steps[|steps| - 1]);
    }
  }

  // ---------------------------------------------------------------- one pending entry at a time

  /** A new entry only while nothing is pending, and only the pending one changes. */
  predicate AloneAt(st: State, step: Step) {
    match step
    case Begin(_, _) => st.nextIndex == 0
    case CommitNew(_, _) => st.nextIndex == 0
    case _ => step.i == st.nextIndex
  }

  predicate OneAtATime(steps: seq<Step>) {
    steps == [] || (OneAtATime(steps[..|steps| - 1]) && AloneAt(Run(steps[..|steps| - 1]), steps[|steps| - 1]))
  }

  /** Runs with one pending entry at a time are orderly. */
  lemma {:induction false} AloneOrderly(steps: seq<Step>)
    requires RunOk(steps) && OneAtATime(steps)
    ensures Orderly(steps) && (Run(steps).nextIndex != 0 ==> Run(steps).nextIndex == Recorded(steps).tail)
    ensures 0 !in Run(steps).logs
  {
    if steps != [] {
      AloneOrderly(steps[..|steps| - 1]);
    }
  }

  // ---------------------------------------------------------------- what the steps leave in the record

  /** An entry began at step n, and no entry was committed, cancelled or added since. */
  ghost predicate BegunLast(steps: seq<Step>, n: nat) {
    n < |steps| && steps[n].Begin? && forall m :: n < m < |steps| ==> steps[m].Progress?
  }

  /** After any run the pending index is that of the last entry begun, if no commit, cancel or failure
      came after it, and 0 otherwise. */
  lemma {:induction false} PendingExact(steps: seq<Step>)
    requires RunOk(steps)
    ensures Run(steps).nextIndex == 0 <==> forall n: nat :: !BegunLast(steps, n)
    ensures forall n: nat :: BegunLast(steps, n) ==> Run(steps).nextIndex == steps[n].i
  {
    if steps != [] {
      var before, step := steps[..|steps| - 1], steps[|steps| - 1];
      PendingExact(before);
      forall n: nat
        ensures BegunLast(steps, n) <==>
                if n == |before| then step.Begin? else step.Progress? && BegunLast(before, n)
      {
        assert n < |before| ==> before[n] == steps[n];
        if n < |before| && BegunLast(steps, n) {
          assert steps[|before|].Progress?;
          assert forall m :: n < m < |before| ==> before[m] == steps[m];
        }
      }
      if step.Begin? {
        assert BegunLast(steps, |before|);
      }
    }
  }

  /** The entry began at some step, and no step after it committed, cancelled or failed it. */
  ghost predicate OpenSince(steps: seq<Step>, n: nat, i: nat) {
    n < |steps| && steps[n].Begin? && steps[n].i == i &&
    forall m :: n < m < |steps| && steps[m].i == i ==> steps[m].Begin? || steps[m].Progress?
  }

  ghost predicate Open(steps: seq<Step>, i: nat) {
    exists n: nat :: OpenSince(steps, n, i)
  }

  /** One step opens, closes or leaves an entry. */
  lemma OpenNext(steps: seq<Step>, i: nat)
    requires steps != []
    ensures var before, step := steps[..|steps| - 1], steps[|steps| - 1];
            Open(steps, i) <==>
            if step.i != i || step.Progress? then Open(before, i) else step.Begin?
  {
    var before, step := steps[..|steps| - 1], steps[|steps| - 1];
    if step.Begin? && step.i == i {
      assert OpenSince(steps, |before|, i);
    }
    if Open(before, i) && (step.i != i || step.Progress?) {
      var n: nat :| OpenSince(before, n, i);
      assert before[n] == steps[n];
      forall m | n < m < |steps| && steps[m].i == i
        ensures steps[m].Begin? || steps[m].Progress?
      {
        assert m < |before| ==> before[m] == steps[m];
      }
      assert OpenSince(steps, n, i);
    }
    if Open(steps, i) && !(step.Begin? && step.i == i) {
      var n: nat :| OpenSince(steps, n, i);
      assert n < |before| && before[n] == steps[n];
      assert forall m :: n < m < |before| ==> before[m] == steps[m];
      assert OpenSince(before, n, i);
    }
  }

  /** With one entry at a time, the pending index is 0 exactly when no entry is open; otherwise it is
      the one open entry. */
  lemma {:induction false} AlonePending(steps: seq<Step>)
    requires RunOk(steps) && OneAtATime(steps)
    ensures forall i :: Open(steps, i) <==> i != 0 && i == Run(steps).nextIndex
  {
    if steps == [] {
      assert forall i :: !Open(steps, i);
    } else {
      var before := steps[..|steps| - 1];
      AlonePending(before);
      AloneOrderly(before);
      forall i
        ensures Open(steps, i) <==> i != 0 && i == Run(steps).nextIndex
      {
        OpenNext(steps, i);
        assert Open(before, i) <==> i != 0 && i == Run(before).nextIndex;
      }
    }
  }

  /** So a new entry may begin exactly when every entry begun has been committed, cancelled or failed. */
  lemma MayBegin(steps: seq<Step>, i: nat, op: Operation)
    requires RunOk(steps) && OneAtATime(steps) && StepOk(Run(steps), Begin(i, op))
    ensures OneAtATime(steps + [Begin(i, op)]) <==> forall j :: !Open(steps, j)
  {
    AlonePending(steps);
    assert (steps + [Begin(i, op)])[..|steps|] == steps;
    if Run(steps).nextIndex != 0 {
      assert Open(steps, Run(steps).nextIndex);
    }
  }

  /** What a step writes into its entry. */
  function Written(step: Step): (Operation, string) {
    match step
    case Begin(_, op) => (op, "")
    case Progress(_, code) => (Other(code), "")
    case CommitEntry(_, fileName) => (Commit, fileName)
    case CancelEntry(_, failed) => (if failed then Fail else Cancel, "")
    case CommitNew(_, fileName) => (Commit, fileName)
  }

  /** Step n is the last that names its entry. */
  ghost predicate LastOf(steps: seq<Step>, n: nat) {
    n < |steps| && forall m :: n < m < |steps| ==> steps[m].i != steps[n].i
  }

  /** A step changes no entry but its own. */
  lemma OthersKept(st: State, step: Step, i: nat)
    requires StepOk(st, step) && i != step.i
    ensures i in Apply(st, step).logs <==> i in st.logs
    ensures i in st.logs ==> Apply(st, step).logs[i].op == st.logs[i].op &&
                             Apply(st, step).logs[i].fileName == st.logs[i].fileName
  {
  }

  lemma OwnWritten(st: State, step: Step)
    requires StepOk(st, step) && (Uncommitted(st, step.i) ==> st.logs[step.i].fileName == "")
    ensures step.i in Apply(st, step).logs
    ensures var info := Apply(st, step).logs[step.i]; (info.op, info.fileName) == Written(step)
  {
  }

  /** Entries that are not committed have no file. */
  lemma {:induction false} Unnamed(steps: seq<Step>, i: nat)
    requires RunOk(steps) && Uncommitted(Run(steps), i)
    ensures Run(steps).logs[i].fileName == ""
  {
    if steps != [] {
      var before, step := steps[..|steps| - 1], steps[|steps| - 1];
      if Uncommitted(Run(before), i) {
        Unnamed(before, i);
      }
      if i == step.i {
        OwnWritten(Run(before), step);
      } else {
        OthersKept(Run(before), step, i);
      }
    }
  }

  /** After any run the log has exactly the entries that steps name, each as its last step left it. */
  lemma {:induction false} EntriesExact(steps: seq<Step>, n: nat)
    requires RunOk(steps) && LastOf(steps, n)
    ensures steps[n].i in Run(steps).logs
    ensures var info := Run(steps).logs[steps[n].i]; (info.op, info.fileName) == Written(steps[n])
  {
    var before, step := steps[..|steps| - 1], steps[|steps| - 1];
    if n < |before| {
      assert before[n] == steps[n] && forall m :: n < m < |before| ==> before[m] == steps[m];
      EntriesExact(before, n);
      OthersKept(Run(before), step, steps[n].i);
    } else {
      if Uncommitted(Run(before), step.i) {
        Unnamed(before, step.i);
      }
      OwnWritten(Run(before), step);
    }
  }

  /** No entry that no step names. */
  lemma {:induction false} EntriesNamed(steps: seq<Step>, i: nat) returns (n: nat)
    requires RunOk(steps) && i in Run(steps).logs
    ensures LastOf(steps, n) && steps[n].i == i
  {
    var before, step := steps[..|steps| - 1], steps[|steps| - 1];
    if i == step.i {
      n := |before|;
    } else {
      OthersKept(Run(before), step, i);
      n := EntriesNamed(before, i);
      assert before[n] == steps[n] && forall m :: n < m < |before| ==> before[m] == steps[m];
    }
  }

  // ---------------------------------------------------------------- what the steps leave in the links

  predicate Commits(step: Step) {
    step.CommitEntry? || step.CommitNew?
  }

  predicate Adds(step: Step) {
    step.Begin? || step.CommitNew?
  }

  /** No commit between the two steps. */
  ghost predicate Quiet(steps: seq<Step>, n: nat, m: nat)
    requires m <= |steps|
  {
    forall c :: n < c < m ==> !Commits(steps[c])
  }

  lemma {:induction false} CommitStays(steps: seq<Step>, n: nat)
    requires RunOk(steps) && n < |steps| && Commits(steps[n])
    ensures steps[n].i in Run(steps).logs && Run(steps).logs[steps[n].i].op.Commit?
    ensures forall m :: n < m < |steps| && (Commits(steps[m]) || Adds(steps[m])) ==> steps[m].i != steps[n].i
  {
    var before, step := steps[..|steps| - 1], steps[|steps| - 1];
    if n < |before| {
      assert before[n] == steps[n] && forall m :: n < m < |before| ==> before[m] == steps[m];
      CommitStays(before, n);
    }
  }

  /** After any run the committed index is that of the last commit, and 0 before the first. */
  lemma {:induction false} IndexExact(steps: seq<Step>)
    requires RunOk(steps)
    ensures forall n :: 0 <= n < |steps| && Commits(steps[n]) && Quiet(steps, n, |steps|) ==>
              Run(steps).index == steps[n].i
    ensures Run(steps).index == 0 <==> forall n :: 0 <= n < |steps| ==> !Commits(steps[n])
  {
    if steps != [] {
      var before, step := steps[..|steps| - 1], steps[|steps| - 1];
      IndexExact(before);
      assert forall n :: 0 <= n < |before| ==> before[n] == steps[n];
      forall n | 0 <= n < |before| && Commits(steps[n]) && Quiet(steps, n, |steps|)
        ensures Quiet(before, n, |before|) && !Commits(step)
      {
        assert !Commits(steps[|before|]);
      }
      if forall n :: 0 <= n < |steps| ==> !Commits(steps[n]) {
        assert !Commits(steps[|before|]);
      } else {
        var n :| 0 <= n < |steps| && Commits(steps[n]);
        assert n < |before| ==> Commits(before[n]);
        assert step.i == 0 ==> !Commits(step) by {
          ZeroUnknown(before);
        }
      }
    }
  }

  lemma {:induction false} ZeroUnknown(steps: seq<Step>)
    requires RunOk(steps)
    ensures 0 !in Run(steps).logs
  {
    if steps != [] {
      ZeroUnknown(steps[..|steps| - 1]);
    }
  }

  /** Entries that are not committed are linked to nothing. */
  lemma {:induction false} RunLoose(steps: seq<Step>, i: nat)
    requires RunOk(steps)
    ensures i in Run(steps).logs && !Run(steps).logs[i].op.Commit? ==> Loose(Run(steps).logs, i)
  {
    if steps != [] {
      RunLoose(steps[..|steps| - 1], i);
    }
  }

  /** Step m is the last that added an entry between the commit at step n and the commit after it. */
  ghost predicate LinkedTo(steps: seq<Step>, n: nat, m: nat) {
    n < m < |steps| && Adds(steps[m]) && Quiet(steps, n, m) &&
    forall k :: m < k < |steps| && Adds(steps[k]) ==> !Quiet(steps, n, k)
  }

  lemma LinkedToNext(steps: seq<Step>, n: nat, m: nat)
    requires n + 1 < |steps|
    ensures var before, step := steps[..|steps| - 1], steps[|steps| - 1];
            LinkedTo(steps, n, m) <==>
            if Adds(step) && Quiet(before, n, |before|) then m == |before| else LinkedTo(before, n, m)
  {
    var before, step := steps[..|steps| - 1], steps[|steps| - 1];
    assert forall k :: 0 <= k < |before| ==> before[k] == steps[k];
    assert forall k :: 0 <= k <= |before| ==> (Quiet(before, n, k) <==> Quiet(steps, n, k));
    assert steps[|before|] == step;
  }

  /** The links a step changes: only that of the entry committed last, when an entry is added. */
  lemma LinkStep(st: State, step: Step, i: nat)
    requires StepOk(st, step) && i in st.logs && st.logs[i].op.Commit? && i != 0
    ensures i in Apply(st, step).logs
    ensures Apply(st, step).logs[i].next == if Adds(step) && st.index == i then step.i else st.logs[i].next
  {
  }

  /** After any run, whatever overlaps, a committed entry is linked to the entry added last before the
      next commit, and to nothing if there is none. */
  lemma {:induction false} LinksExact(steps: seq<Step>, n: nat)
    requires RunOk(steps) && n < |steps| && Commits(steps[n])
    ensures steps[n].i in Run(steps).logs
    ensures forall m: nat :: LinkedTo(steps, n, m) ==> Run(steps).logs[steps[n].i].next == steps[m].i
    ensures (forall m: nat :: !LinkedTo(steps, n, m)) ==> Run(steps).logs[steps[n].i].next == 0
  {
    var before, step, i := steps[..|steps| - 1], steps[|steps| - 1], steps[n].i;
    CommitStays(steps, n);
    if n == |before| {
      RunLoose(before, i);
      RunForward(before);
    } else {
      assert before[n] == steps[n];
      LinksExact(before, n);
      CommitStays(before, n);
      ZeroUnknown(before);
      LinkStep(Run(before), step, i);
      LastCommit(before, n);
      forall m: nat
        ensures LinkedTo(steps, n, m) <==>
                if Adds(step) && Quiet(before, n, |before|) then m == |before| else LinkedTo(before, n, m)
      {
        LinkedToNext(steps, n, m);
      }
      assert forall m: nat :: LinkedTo(before, n, m) ==> before[m] == steps[m];
    }
  }

  lemma LastCommit(steps: seq<Step>, n: nat)
    requires RunOk(steps) && n < |steps| && Commits(steps[n])
    ensures Run(steps).index == steps[n].i <==> Quiet(steps, n, |steps|)
  {
    IndexExact(steps);
    if !Quiet(steps, n, |steps|) {
      var m := LastCommitAfter(steps, n);
      CommitStays(steps, n);
    }
  }

  lemma LastCommitAfter(steps: seq<Step>, n: nat) returns (m: nat)
    requires n < |steps| && !Quiet(steps, n, |steps|)
    ensures n < m < |steps| && Commits(steps[m]) && Quiet(steps, m, |steps|)
  {
    m := |steps| - 1;
    while !Commits(steps[m])
      invariant n <= m < |steps| && Quiet(steps, m, |steps|)
      decreases m
    {
      m := m - 1;
    }
  }

  // ---------------------------------------------------------------- what the walk lists

  function Later(h: History, k: nat): seq<nat>
    requires k < |h.committed|
  {
    h.committed[k + 1..] + if h.tail == 0 then [] else [h.tail]
  }

  /** The j-th pair after committed entry k: an index, and the file of the entry before it. */
  ghost predicate LaterPair(logs: Logs, h: History, k: nat, j: nat, pair: (nat, string))
    requires k < |h.committed|
  {
    j < |Later(h, k)| && k + j < |h.committed| && h.committed[k + j] in logs &&
    pair == (Later(h, k)[j], logs[h.committed[k + j]].fileName)
  }

  lemma {:induction false} WalkChain(st: State, h: History, k: nat)
    requires Chain(st, h) && k < |h.committed|
    ensures var pairs := Walk(st.logs, h.order, h.committed[k]);
            |pairs| == |Later(h, k)| && forall j :: 0 <= j < |pairs| ==> LaterPair(st.logs, h, k, j, pairs[j])
    decreases |h.committed| - k
  {
    var i := h.committed[k];
    assert LinkAt(st.logs, h, k);
    if k + 1 < |h.committed| {
      CommittedKnown(st, h, h.committed[k + 1]);
      WalkChain(st, h, k + 1);
      assert Later(h, k) == [h.committed[k + 1]] + Later(h, k + 1);
      var rest := Walk(st.logs, h.order, h.committed[k + 1]);
      var pairs := Walk(st.logs, h.order, i);
      assert pairs == [(h.committed[k + 1], st.logs[i].fileName)] + rest;
      forall j | 0 <= j < |pairs|
        ensures LaterPair(st.logs, h, k, j, pairs[j])
      {
        if j > 0 {
          assert pairs[j] == rest[j - 1] && LaterPair(st.logs, h, k + 1, j - 1, rest[j - 1]);
        }
      }
    } else if h.tail != 0 {
      assert Loose(st.logs, h.tail);
      assert !GoesOn(st.logs, h.tail) && Walk(st.logs, h.order, h.tail) == [];
      assert Walk(st.logs, h.order, i) == [(h.tail, st.logs[i].fileName)];
      assert h.committed[k + 1..] == [] && Later(h, k) == [h.tail];
    } else {
      assert Walk(st.logs, h.order, i) == [];
      assert h.committed[k + 1..] == [] && Later(h, k) == [];
    }
  }

  /** After any orderly run the walk from a committed index lists all indices committed later, in
      commit order, then at most one uncommitted index. Each comes with the file of the entry before
      it. */
  lemma CatchUp(steps: seq<Step>, k: nat)
    requires RunOk(steps) && Orderly(steps) && k < |Recorded(steps).committed|
    ensures var st, h := Run(steps), Recorded(steps);
            Forward(st.logs, h.order) &&
            var pairs := Walk(st.logs, h.order, h.committed[k]);
            |pairs| == |Later(h, k)| && forall j :: 0 <= j < |pairs| ==> LaterPair(st.logs, h, k, j, pairs[j])
  {
    RunChain(steps);
    WalkChain(Run(steps), Recorded(steps), k);
  }

  // ---------------------------------------------------------------- commits out of order

  /** No link leads to the entry. */
  ghost predicate Unlinked(logs: Logs, i: nat) {
    i in logs && forall j :: j in logs ==> logs[j].next != i
  }

  ghost predicate Lists(pairs: seq<(nat, string)>, i: nat) {
    exists k :: 0 <= k < |pairs| && pairs[k].0 == i
  }

  /** No walk lists an entry no link leads to, wherever it starts. */
  lemma {:induction false} UnlinkedLost(logs: Logs, order: seq<nat>, from: nat, i: nat)
    requires Forward(logs, order) && Unlinked(logs, i)
    ensures !Lists(Walk(logs, order, from), i)
    decreases Left(order, from)
  {
    if GoesOn(logs, from) {
      LinkShrinks(logs, order, from);
      UnlinkedLost(logs, order, logs[from].next, i);
      var rest := Walk(logs, order, logs[from].next);
      forall k | 0 <= k < |Walk(logs, order, from)|
        ensures Walk(logs, order, from)[k].0 != i
      {
        assert k > 0 ==> Walk(logs, order, from)[k] == rest[k - 1];
      }
    }
  }

  /** No later step links an entry that is there already. */
  lemma StaysUnlinked(st: State, step: Step, i: nat)
    requires StepOk(st, step) && i != 0 && Unlinked(st.logs, i)
    ensures Unlinked(Apply(st, step).logs, i)
  {
  }

  /** Committing another entry than the one added last leaves it without a link to it. */
  lemma CommitUnlinked(st: State, h: History, i: nat, fileName: string)
    requires Chain(st, h) && StepOk(st, CommitEntry(i, fileName)) && !InOrder(h, CommitEntry(i, fileName))
    ensures i != 0 && Unlinked(Apply(st, CommitEntry(i, fileName)).logs, i)
  {
    if i in h.committed {
      CommittedKnown(st, h, i);
    }
    assert i !in h.committed;
    forall j | j in st.logs
      ensures st.logs[j].next != i
    {
      if j in h.committed {
        assert LinkAt(st.logs, h, Pos(h.committed, j));
      } else {
        assert Loose(st.logs, j);
      }
    }
  }

  /** The links of any run go forward. */
  lemma {:induction false} RunForward(steps: seq<Step>)
    requires RunOk(steps)
    ensures Forward(Run(steps).logs, Recorded(steps).order)
    ensures Run(steps).index == 0 || Run(steps).index in Run(steps).logs
  {
    if steps != [] {
      var before, step := steps[..|steps| - 1], steps[|steps| - 1];
      RunForward(before);
      var st, order := Run(before), Recorded(before).order;
      match step
      case Begin(i, op) => AddForward(st.logs, order, i, op, st.index, "");
      case CommitNew(i, fileName) => AddForward(st.logs, order, i, Commit, st.index, fileName);
      case Progress(i, code) => UpdateForward(st.logs, order, i, Other(code), "");
      case CommitEntry(i, fileName) => UpdateForward(st.logs, order, i, Commit, fileName);
      case CancelEntry(i, failed) => UpdateForward(st.logs, order, i, if failed then Fail else Cancel, "");
    }
  }

  /** Some entry committed after another one has no link to it. */
  ghost predicate LostAt(st: State, h: History, k: nat) {
    1 <= k < |h.committed| && h.committed[k] != 0 && Unlinked(st.logs, h.committed[k])
  }

  /** A commit out of order loses its entry for good. */
  lemma {:induction false} Loses(steps: seq<Step>) returns (k: nat)
    requires RunOk(steps) && !Orderly(steps)
    ensures LostAt(Run(steps), Recorded(steps), k)
  {
    var before, step := steps[..|steps| - 1], steps[|steps| - 1];
    var st, h := Run(before), Recorded(before);
    if Orderly(before) {
      RunChain(before);
      CommitUnlinked(st, h, step.i, step.fileName);
      k := |h.committed|;
    } else {
      k := Loses(before);
      StaysUnlinked(st, step, h.committed[k]);
    }
  }

  /** From every committed index the walk lists all indices committed later. */
  ghost predicate CatchesUp(st: State, h: History)
    requires Forward(st.logs, h.order)
  {
    forall k, m :: 0 <= k < m < |h.committed| ==> Lists(Walk(st.logs, h.order, h.committed[k]), h.committed[m])
  }

  /** Followers catch up after a run, whatever overlaps, exactly when each commit but the first is of
      the entry added last since the commit before it. */
  lemma CatchUpExact(steps: seq<Step>)
    requires RunOk(steps)
    ensures Forward(Run(steps).logs, Recorded(steps).order)
    ensures CatchesUp(Run(steps), Recorded(steps)) <==> Orderly(steps)
  {
    RunForward(steps);
    var st, h := Run(steps), Recorded(steps);
    if Orderly(steps) {
      forall k, m | 0 <= k < m < |h.committed|
        ensures Lists(Walk(st.logs, h.order, h.committed[k]), h.committed[m])
      {
        CatchUp(steps, k);
        assert LaterPair(st.logs, h, k, m - k - 1, Walk(st.logs, h.order, h.committed[k])[m - k - 1]);
      }
    } else {
      var m := Loses(steps);
      UnlinkedLost(st.logs, h.order, h.committed[0], h.committed[m]);
    }
  }

  lemma {:induction false} RunPrefix(steps: seq<Step>, n: nat)
    requires RunOk(steps) && n < |steps|
    ensures RunOk(steps[..n]) && StepOk(Run(steps[..n]), steps[n])
  {
    if n < |steps| - 1 {
      var before := steps[..|steps| - 1];
      RunPrefix(before, n);
      assert before[..n] == steps[..n] && before[n] == steps[n];
    }
  }

  /** The first entry committed out of order is listed by no walk, then and ever after. */
  lemma OutOfOrder(steps: seq<Step>, n: nat, from: nat)
    requires RunOk(steps) && n < |steps| && Orderly(steps[..n]) && !InOrder(Recorded(steps[..n]), steps[n])
    ensures Forward(Run(steps).logs, Recorded(steps).order)
    ensures !Lists(Walk(Run(steps).logs, Recorded(steps).order, from), steps[n].i)
  {
    RunForward(steps);
    StillUnlinked(steps, n);
    UnlinkedLost(Run(steps).logs, Recorded(steps).order, from, steps[n].i);
  }

  lemma {:induction false} StillUnlinked(steps: seq<Step>, n: nat)
    requires RunOk(steps) && n < |steps| && Orderly(steps[..n]) && !InOrder(Recorded(steps[..n]), steps[n])
    ensures steps[n].i != 0 && Unlinked(Run(steps).logs, steps[n].i)
  {
    RunPrefix(steps, n);
    var before := steps[..|steps| - 1];
    if n == |steps| - 1 {
      RunChain(before);
      CommitUnlinked(Run(before), Recorded(before), steps[n].i, steps[n].fileName);
    } else {
      assert before[..n] == steps[..n] && before[n] == steps[n];
      StillUnlinked(before, n);
      StaysUnlinked(Run(before), steps[|steps| - 1], steps[n].i);
    }
  }

  lemma RunMore(steps: seq<Step>, step: Step)
    ensures Run(steps + [step]) == Apply(Run(steps), step) && Recorded(steps + [step]) == Record(Recorded(steps), step)
    ensures RunOk(steps + [step]) <==> RunOk(steps) && StepOk(Run(steps), step)
    ensures Orderly(steps + [step]) <==> Orderly(steps) && InOrder(Recorded(steps), step)
  {
    assert (steps + [step])[..|steps|] == steps;
  }

  /** Two entries begun together from the start: the one committed second is lost. */
  lemma OverlapLoses(p: nat, i: nat, op: Operation, fileName: string, from: nat)
    requires p != 0 && i != 0 && p != i && !op.Commit? && !op.Build? && fileName != ""
    ensures var steps := [Begin(p, op)] + [Begin(i, op)] + [CommitEntry(p, fileName)] + [CommitEntry(i, fileName)];
            RunOk(steps) && !Orderly(steps) && Recorded(steps).committed == [p, i] &&
            Forward(Run(steps).logs, Recorded(steps).order) &&
            !Lists(Walk(Run(steps).logs, Recorded(steps).order, from), i)
  {
    var begun := [Begin(p, op)] + [Begin(i, op)];
    var steps := begun + [CommitEntry(p, fileName)] + [CommitEntry(i, fileName)];
    assert [] + [Begin(p, op)] == [Begin(p, op)];
    RunMore([], Begin(p, op));
    RunMore([Begin(p, op)], Begin(i, op));
    RunMore(begun, CommitEntry(p, fileName));
    RunMore(begun + [CommitEntry(p, fileName)], CommitEntry(i, fileName));
    assert steps[..3] == begun + [CommitEntry(p, fileName)] && steps[3] == CommitEntry(i, fileName);
    OutOfOrder(steps, 3, from);
  }

  // ---------------------------------------------------------------- the log object

  /** A known index leaves all entries as they were. A new one changes no entry but the committed or
      built one the term record names, and of that only the link. */
  ghost predicate Linked(before: State, after: State, index: nat) {
    (index in before.logs ==> after.logs == before.logs) &&
    (index !in before.logs ==>
       after.logs.Keys == before.logs.Keys + {index} &&
       forall i :: i in before.logs ==>
         after.logs[i].op == before.logs[i].op && after.logs[i].fileName == before.logs[i].fileName &&
         after.logs[i].next ==
           if i == before.index && i != 0 && before.logs[i].op in {Commit, Build} then index else before.logs[i].next)
  }

  /** A known entry has the new state, and the new file if one is given; nothing else changes. */
  ghost predicate Renamed(before: Logs, after: Logs, index: nat, op: Operation, fileName: string) {
    after.Keys == before.Keys &&
    forall i :: i in before ==>
      after[i].next == before[i].next && after[i].op == (if i == index then op else before[i].op) &&
      after[i].fileName == if i == index && fileName != "" then fileName else before[i].fileName
  }

  lemma AddedLinked(st: State, index: nat, op: Operation, fileName: string, after: State)
    requires after.logs == LogAdded(st.logs, index, op, st.index, fileName)
    ensures Linked(st, after, index)
  {
    if index !in st.logs {
      assert after.logs.Keys == st.logs.Keys + {index};
    }
  }

  /** The log of one database and its term record, updated in place. */
  class DatabaseLog {
    var state: State
    ghost var order: seq<nat>

    ghost predicate Valid()
      reads this
    {
      Forward(state.logs, order) && (state.index == 0 || state.index in state.logs)
    }

    constructor ()
      ensures Valid() && state == START
    {
      state, order := START, [];
    }

    method AddLog(index: nat, op: Operation)
      requires Valid()
      modifies this
      ensures Valid() && state == Add(old(state), index, op)
      ensures Linked(old(state), state, index)
    {
      var logs := state.logs;
      if index !in logs {
        AddForward(logs, order, index, op, state.index, "");
        order := order + [index];
        logs := logs[index := LogInfo(op, 0, "")];
        if state.index != 0 && state.index in logs {
          if logs[state.index].op.Commit? || logs[state.index].op.Build? {
            logs := logs[state.index := logs[state.index].(next := index)];
          }
        }
      }
      AddedLinked(state, index, op, "", State(logs, state.index, index));
      state := State(logs, state.index, index);
    }

    method AddCommitLog(index: nat, fileName: string)
      requires Valid()
      modifies this
      ensures Valid() && state == AddCommit(old(state), index, fileName)
      ensures Linked(old(state), state, index)
    {
      var last := state.index;
      if index !in state.logs {
        AddForward(state.logs, order, index, Commit, last, fileName);
        order := order + [index];
      }
      AddedLinked(state, index, Commit, fileName, AddCommit(state, index, fileName));
      state := State(LogAdded(state.logs, index, Commit, last, fileName), index, 0);
    }

    /** The term record follows even when the log has no such entry. */
    method UpdateLogOperation(index: nat, op: Operation, fileName: string)
      requires Valid()
      modifies this
      ensures state == Update(old(state), index, op, fileName) && Forward(state.logs, order)
      ensures Renamed(old(state).logs, state.logs, index, op, fileName)
      ensures state.nextIndex == if op in {Commit, Cancel, Fail} then 0 else old(state).nextIndex
      ensures op.Commit? && index != 0 ==> (Valid() <==> index in old(state).logs)
      ensures !op.Commit? ==> Valid()
    {
      UpdateForward(state.logs, order, index, op, fileName);
      var next := if op.Commit? || op.Cancel? || op.Fail? then 0 else state.nextIndex;
      var logs := state.logs;
      if index in logs {
        logs := logs[index := logs[index].(op := op)];
        if fileName != "" {
          logs := logs[index := logs[index].(fileName := fileName)];
        }
      }
      state := State(logs, if op.Commit? then index else state.index, next);
    }
  }
}
