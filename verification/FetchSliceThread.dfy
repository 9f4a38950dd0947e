/** The handshake between the user interface, which requests slices, and the worker
    thread, which loads and emits them, as steps that can interleave in any order. */
module FetchSliceThread {

  /** A loaded slice with the number of the request it answers, counting from one. */
  datatype Image = Image(slice: int, request: nat)

  /** Where the worker is. Waiting, it runs on once it is signalled. */
  datatype Worker =
    | NotStarted
    | AtTop
    | HasRead(image: Image)
    | Emitting(image: Image)
    | Finishing
    | Waiting(signalled: bool)

  /** The shared fields, the worker, and the history of requests and emissions. */
  datatype State = State(sliceIdx: int, restart: bool, worker: Worker, requests: seq<int>, emitted: seq<Image>)

  datatype Event = Request(slice: int) | Work | SpuriousWake

  const INITIAL := State(0, false, NotStarted, [], [])

  /** A request starts the worker, or tells it to start over and wakes it if it waits. */
  function Requested(st: State, slice: int): State {
    var st := st.(sliceIdx := slice, requests := st.requests + [slice]);
    if st.worker.NotStarted? then st.(worker := AtTop)
    else st.(restart := true, worker := if st.worker.Waiting? then Waiting(true) else st.worker)
  }

  /** Can the worker run on? */
  predicate Runs(st: State) {
    !st.worker.NotStarted? && st.worker != Waiting(false)
  }

  /** One step of the worker: each accesses the shared fields once or inside the lock. */
  function Worked(st: State): State
    requires Runs(st)
  {
    match st.worker
    case AtTop => st.(worker := HasRead(Image(st.sliceIdx, |st.requests|)))
    case HasRead(image) => st.(worker := if !st.restart then Emitting(image) else Finishing)
    case Emitting(image) => st.(worker := Finishing, emitted := st.emitted + [image])
    case Finishing => if !st.restart then st.(worker := Waiting(false)) else st.(restart := false, worker := AtTop)
    case Waiting(_) => st.(restart := false, worker := AtTop)
  }

  predicate Enabled(st: State, e: Event) {
    match e
    case Request(_) => true
    case Work => Runs(st)
    case SpuriousWake => st.worker.Waiting?
  }

  function Next(st: State, e: Event): State
    requires Enabled(st, e)
  {
    match e
    case Request(slice) => Requested(st, slice)
    case Work => Worked(st)
    case SpuriousWake => st.(worker := Waiting(true))
  }

  // ----- safety -----

  predicate Answers(st: State, image: Image) {
    1 <= image.request <= |st.requests| && image.slice == st.requests[image.request - 1]
  }

  /** The latest request has been answered. */
  predicate UpToDate(st: State) {
    st.emitted != [] && st.emitted[|st.emitted| - 1].request == |st.requests|
  }

  /** Nothing was emitted that answers a later request than image does. */
  predicate NotOvertaken(st: State, image: Image) {
    st.emitted != [] ==> st.emitted[|st.emitted| - 1].request <= image.request
  }

  predicate InOrder(emitted: seq<Image>) {
    forall i, j | 0 <= i <= j < |emitted| :: emitted[i].request <= emitted[j].request
  }

  ghost predicate Inv(st: State) {
    && (st.worker.NotStarted? <==> st.requests == [])
    && (st.requests != [] ==> st.sliceIdx == st.requests[|st.requests| - 1])
    && InOrder(st.emitted) && (forall i | 0 <= i < |st.emitted| :: Answers(st, st.emitted[i]))
    && match st.worker
       case NotStarted => !st.restart && st.emitted == []
       case AtTop => true
       case HasRead(image) => Answers(st, image) && NotOvertaken(st, image) && (!st.restart ==> image.request == |st.requests|)
       case Emitting(image) => Answers(st, image) && NotOvertaken(st, image) && (!st.restart ==> image.request == |st.requests|)
       case Finishing => !st.restart ==> UpToDate(st)
       case Waiting(signalled) => (!st.restart ==> UpToDate(st)) && (st.restart ==> signalled)
  }

  lemma NextKeepsInv(st: State, e: Event)
    requires Inv(st) && Enabled(st, e)
    ensures Inv(Next(st, e))
  {
    var st' := Next(st, e);
    forall i | 0 <= i < |st.emitted| ensures Answers(st', st.emitted[i]) {
      assert Answers(st, st.emitted[i]);
    }
  }

  predicate Trace(st: State, events: seq<Event>)
    decreases |events|
  {
    events == [] || (Enabled(st, events[0]) && Trace(Next(st, events[0]), events[1..]))
  }

  function After(st: State, events: seq<Event>): State
    requires Trace(st, events)
    decreases |events|
  {
    if events == [] then st else After(Next(st, events[0]), events[1..])
  }

  lemma {:induction false} TraceKeepsInv(st: State, events: seq<Event>)
    requires Inv(st) && Trace(st, events)
    ensures Inv(After(st, events))
    decreases |events|
  {
    hide Inv, Next, Enabled;
    if events != [] {
      NextKeepsInv(st, events[0]);
      TraceKeepsInv(Next(st, events[0]), events[1..]);
    }
  }

  /** In every interleaving: a worker that is blocked has answered the latest request, a waiting worker
      with a restart to do has been signalled, and slices are emitted in the order of their requests. */
  lemma {:induction false} HandshakeIsSafe(events: seq<Event>)
    requires Trace(INITIAL, events)
    ensures var st := After(INITIAL, events);
            && (st.worker == Waiting(false) ==>
                  st.emitted != [] && st.requests != []
                  && st.emitted[|st.emitted| - 1] == Image(st.requests[|st.requests| - 1], |st.requests|))
            && (st.worker.Waiting? && st.restart ==> st.worker.signalled)
            && InOrder(st.emitted)
            && forall i | 0 <= i < |st.emitted| :: Answers(st, st.emitted[i])
  {
    hide Trace, After, Next, Enabled, Answers;
    InitialInv();
    TraceKeepsInv(INITIAL, events);
    var st := After(INITIAL, events);
    if st.worker == Waiting(false) {
      LastAnswer(st);
    }
  }

  lemma InitialInv()
    ensures Inv(INITIAL)
  {}

  lemma LastAnswer(st: State)
    requires Inv(st) && st.worker == Waiting(false)
    ensures st.requests != [] && UpToDate(st)
    ensures st.emitted[|st.emitted| - 1] == Image(st.requests[|st.requests| - 1], |st.requests|)
  {
    assert Answers(st, st.emitted[|st.emitted| - 1]);
  }

  // ----- progress -----

  /** The steps the worker takes until it blocks when no further request arrives. */
  function Remaining(st: State): nat {
    match st.worker
    case NotStarted => 0
    case AtTop => if st.restart then 7 else 4
    case HasRead(_) => if st.restart then 6 else 3
    case Emitting(_) => if st.restart then 6 else 2
    case Finishing => if st.restart then 5 else 1
    case Waiting(signalled) => if signalled then 5 else 0
  }

  function Quiet(st: State, n: nat): State
    decreases n
  {
    if n == 0 || !Runs(st) then st else Quiet(Worked(st), n - 1)
  }

  /** Left alone after at least one request, the worker blocks within seven steps with the latest
      request answered, and emits at most one outdated slice before the latest. */
  lemma {:induction false} QuietWorkerSettles(st: State)
    requires Inv(st) && st.requests != []
    ensures Remaining(st) <= 7
    ensures var st' := Quiet(st, Remaining(st));
            && st'.worker == Waiting(false) && st'.requests == st.requests
            && st'.emitted != [] && st'.emitted[|st'.emitted| - 1] == Image(st.requests[|st.requests| - 1], |st.requests|)
            && |st'.emitted| <= |st.emitted| + (if st.worker.Emitting? && st.restart then 2 else 1)
            && st.emitted <= st'.emitted
    decreases Remaining(st)
  {
    hide Inv;
    if Remaining(st) == 0 {
      WaitingOrNot(st);
      LastAnswer(st);
    } else {
      NextKeepsInv(st, Work);
      QuietWorkerSettles(Worked(st));
    }
  }

  lemma WaitingOrNot(st: State)
    requires Inv(st) && st.requests != [] && Remaining(st) == 0
    ensures st.worker == Waiting(false)
  {}
}
