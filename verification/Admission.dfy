/** scripts/benchmark_prompt_lookup_matrix.py: how the workers of one batch take turns sending.
    Every worker waits for its turn event; the request of a worker sets the event of the next worker once the
    response headers are in, or, when the request fails earlier, in its `finally` clause. */
module Admission {
  import opened Basics

  /** Where a worker stands in `run_one` and `run_chat_completion`. */
  datatype Phase =
    | Waiting      // at admission_turns[index].wait()
    | Connecting   // woken, request not sent
    | Requested    // request sent, waiting for the response headers
    | Answered     // headers are in, next turn not yet set
    | Reading      // past the release, reading the body
    | Unwinding    // in the finally clause
    | Finished

  /** released: this request has set the next worker's event before the finally clause. */
  datatype Worker = Worker(phase: Phase, released: bool)

  datatype Event = Sent(worker: nat) | GotHeaders(worker: nat) | Failed(worker: nat)

  datatype State = State(turns: seq<bool>, workers: seq<Worker>, log: seq<Event>)

  datatype Action = Wake | Send | SendFails | Answer | AnswerFails | Release | BodyEnds | Unwind

  datatype Move = Move(worker: nat, action: Action)

  /** `admission_turns[0].set()` before the workers start. */
  function Init(n: nat): State
    requires n > 0
  {
    State(seq(n, i => i == 0), seq(n, _ => Worker(Waiting, false)), [])
  }

  predicate Enabled(s: State, m: Move) {
    && m.worker < |s.workers| == |s.turns|
    && match (m.action, s.workers[m.worker].phase) {
         case (Wake, Waiting) => s.turns[m.worker]
         case (Send, Connecting) => true
         case (SendFails, Connecting) => true
         case (Answer, Requested) => true
         case (AnswerFails, Requested) => true
         case (Release, Answered) => true
         case (BodyEnds, Reading) => true
         case (Unwind, Unwinding) => true
         case _ => false
       }
  }

  function Put(s: State, i: nat, w: Worker): State
    requires i < |s.workers|
  {
    s.(workers := s.workers[i := w])
  }

  /** Set the turn event of the worker after i, if there is one. */
  function SetNext(s: State, i: nat): State {
    if i + 1 < |s.turns| then s.(turns := s.turns[i + 1 := true]) else s
  }

  function Apply(s: State, m: Move): State
    requires Enabled(s, m)
  {
    var i, w := m.worker, s.workers[m.worker];
    match m.action
    case Wake => Put(s, i, w.(phase := Connecting))
    case Send => Put(s, i, w.(phase := Requested)).(log := s.log + [Sent(i)])
    case SendFails => Put(s, i, w.(phase := Unwinding)).(log := s.log + [Failed(i)])
    case Answer => Put(s, i, w.(phase := Answered)).(log := s.log + [GotHeaders(i)])
    case AnswerFails => Put(s, i, w.(phase := Unwinding)).(log := s.log + [Failed(i)])
    case Release =>
      Put(SetNext(s, i), i, w.(phase := Reading, released := i + 1 < |s.turns|))
    case BodyEnds => Put(s, i, w.(phase := Unwinding))
    case Unwind => Put(if w.released then s else SetNext(s, i), i, w.(phase := Finished))
  }

  /** The state after a schedule of moves, if every move is possible when its turn comes. */
  function Execute(n: nat, schedule: seq<Move>): (r: Option<State>)
    requires n > 0
  {
    if |schedule| == 0 then Some(Init(n))
    else
      var last := |schedule| - 1;
      match Execute(n, schedule[..last])
      case None => None
      case Some(s) => if Enabled(s, schedule[last]) then Some(Apply(s, schedule[last])) else None
  }

  // ---- What every step keeps -----------------------------------------------------

  /** The request of this worker can no longer be sent, and its successor's turn may be set. */
  predicate Past(p: Phase) {
    p == Reading || p == Unwinding || p == Finished
  }

  ghost predicate Shape(s: State, n: nat) {
    |s.turns| == |s.workers| == n > 0 && s.turns[0]
  }

  /** A worker that has left the wait has had its turn, and the next turn is set exactly when it has released
      it or has finished. */
  predicate Fits(w: Worker, turn: bool, next: bool) {
    && (w.phase != Waiting ==> turn)
    && (next <==> w.released || w.phase == Finished)
    && (w.released ==> Past(w.phase))
    && (w.phase == Reading ==> w.released)
  }

  /** Who may be set and who has been woken. */
  ghost predicate TurnInv(s: State, n: nat)
    requires Shape(s, n)
  {
    && (forall i :: 0 <= i < n - 1 ==> Fits(s.workers[i], s.turns[i], s.turns[i + 1]))
    && (s.workers[n - 1].phase != Waiting ==> s.turns[n - 1])
  }

  /** All workers before a woken one are past sending. */
  ghost predicate OrderInv(s: State, n: nat)
    requires Shape(s, n)
  {
    forall i, j :: 0 <= i < j < n && s.turns[j] ==> s.turns[i] && Past(s.workers[i].phase)
  }

  /** What the log says about the phases. */
  ghost predicate LogInv(s: State, n: nat)
    requires Shape(s, n)
  {
    && (forall e :: e in s.log ==> e.worker < n)
    && (forall i :: 0 <= i < n && Sent(i) in s.log ==>
          s.workers[i].phase != Waiting && s.workers[i].phase != Connecting)
    && (forall i :: 0 <= i < n && (Past(s.workers[i].phase) || s.workers[i].phase == Answered) ==>
          GotHeaders(i) in s.log || Failed(i) in s.log)
  }

  /** A settled request is past its wait, and a waiting one was sent. */
  ghost predicate SettleInv(s: State, n: nat)
    requires Shape(s, n)
  {
    && (forall i :: 0 <= i < n && (GotHeaders(i) in s.log || Failed(i) in s.log) ==>
          Past(s.workers[i].phase) || s.workers[i].phase == Answered)
    && (forall i :: 0 <= i < n && s.workers[i].phase == Requested ==> Sent(i) in s.log)
  }

  /** Headers come only in answer to a request that was sent. */
  ghost predicate AnswersFollow(log: seq<Event>) {
    forall p :: 0 <= p < |log| && log[p].GotHeaders? ==> Sent(log[p].worker) in log[..p]
  }

  /** No request is settled twice. */
  ghost predicate SettledOnce(log: seq<Event>) {
    forall p, q :: 0 <= p < q < |log| && !log[p].Sent? && !log[q].Sent? ==> log[p].worker != log[q].worker
  }

  /** A request goes out only after its predecessor's headers or failure. */
  ghost predicate Admitted(log: seq<Event>) {
    forall p :: 0 <= p < |log| && log[p].Sent? && log[p].worker > 0 ==>
      GotHeaders(log[p].worker - 1) in log[..p] || Failed(log[p].worker - 1) in log[..p]
  }

  /** Requests go out in index order, each at most once. */
  ghost predicate InOrder(log: seq<Event>) {
    forall p, q :: 0 <= p < q < |log| && log[p].Sent? && log[q].Sent? ==> log[p].worker < log[q].worker
  }

  ghost predicate Inv(s: State, n: nat) {
    Shape(s, n) && TurnInv(s, n) && OrderInv(s, n) && LogInv(s, n) && SettleInv(s, n)
    && Admitted(s.log) && InOrder(s.log) && AnswersFollow(s.log) && SettledOnce(s.log)
  }

  lemma InitInv(n: nat)
    requires n > 0
    ensures Inv(Init(n), n)
  {
  }

  lemma TurnStep(s: State, n: nat, m: Move)
    requires Shape(s, n) && TurnInv(s, n) && Enabled(s, m)
    ensures Shape(Apply(s, m), n) && TurnInv(Apply(s, m), n)
  {
    var i, s' := m.worker, Apply(s, m);
    assert i < n - 1 ==> Fits(s.workers[i], s.turns[i], s.turns[i + 1]);
    forall k | 0 <= k < n - 1 ensures Fits(s'.workers[k], s'.turns[k], s'.turns[k + 1]) {
      assert Fits(s.workers[k], s.turns[k], s.turns[k + 1]);
    }
  }

  lemma OrderStep(s: State, n: nat, m: Move)
    requires Shape(s, n) && TurnInv(s, n) && OrderInv(s, n) && Enabled(s, m)
    ensures Shape(Apply(s, m), n) && OrderInv(Apply(s, m), n)
  {
    var s' := Apply(s, m);
    forall i, j | 0 <= i < j < n && s'.turns[j] ensures s'.turns[i] && Past(s'.workers[i].phase) {
      if !s.turns[j] {
        assert j == m.worker + 1;
        assert s.turns[m.worker];
      }
    }
  }

  lemma LogStep(s: State, n: nat, m: Move)
    requires Shape(s, n) && LogInv(s, n) && Enabled(s, m)
    ensures Shape(Apply(s, m), n) && LogInv(Apply(s, m), n)
  {
  }

  lemma SettleStep(s: State, n: nat, m: Move)
    requires Shape(s, n) && SettleInv(s, n) && Enabled(s, m)
    ensures Shape(Apply(s, m), n) && SettleInv(Apply(s, m), n)
  {
  }

  lemma AppendEvent(log: seq<Event>, e: Event)
    requires Admitted(log) && InOrder(log)
    requires e.Sent? && e.worker > 0 ==> GotHeaders(e.worker - 1) in log || Failed(e.worker - 1) in log
    requires e.Sent? ==> forall p :: 0 <= p < |log| && log[p].Sent? ==> log[p].worker < e.worker
    ensures Admitted(log + [e]) && InOrder(log + [e])
  {
    var longer := log + [e];
    assert longer[..|log|] == log;
    forall p | 0 <= p < |log| ensures longer[..p] == log[..p] {}
  }

  lemma AppendAnswer(log: seq<Event>, e: Event)
    requires AnswersFollow(log) && (e.GotHeaders? ==> Sent(e.worker) in log)
    ensures AnswersFollow(log + [e])
  {
    var longer := log + [e];
    assert longer[..|log|] == log;
    forall p | 0 <= p < |log| ensures longer[..p] == log[..p] {}
  }

  lemma AppendSettled(log: seq<Event>, e: Event)
    requires SettledOnce(log) && (!e.Sent? ==> GotHeaders(e.worker) !in log && Failed(e.worker) !in log)
    ensures SettledOnce(log + [e])
  {
    forall p | 0 <= p < |log| && !log[p].Sent? && !e.Sent? ensures log[p].worker != e.worker {
      assert log[p] in log && (log[p] == GotHeaders(log[p].worker) || log[p] == Failed(log[p].worker));
    }
  }

  /** A worker about to send finds its predecessor settled and only lower requests sent. */
  lemma SendIsNext(s: State, n: nat, i: nat)
    requires Shape(s, n) && TurnInv(s, n) && OrderInv(s, n) && LogInv(s, n)
    requires i < n && s.workers[i].phase == Connecting
    ensures i > 0 ==> GotHeaders(i - 1) in s.log || Failed(i - 1) in s.log
    ensures forall p :: 0 <= p < |s.log| && s.log[p].Sent? ==> s.log[p].worker < i
  {
    assert s.turns[i] by { if i < n - 1 { assert Fits(s.workers[i], s.turns[i], s.turns[i + 1]); } }
    if i > 0 {
      assert Past(s.workers[i - 1].phase);
    }
    forall p | 0 <= p < |s.log| && s.log[p].Sent? ensures s.log[p].worker < i {
      var j := s.log[p].worker;
      assert s.log[p] == Sent(j) && Sent(j) in s.log;
      assert s.turns[j] by { if j < n - 1 { assert Fits(s.workers[j], s.turns[j], s.turns[j + 1]); } }
    }
  }

  lemma LogOrderStep(s: State, n: nat, m: Move)
    requires Inv(s, n) && Enabled(s, m)
    ensures var log := Apply(s, m).log; Admitted(log) && InOrder(log) && AnswersFollow(log) && SettledOnce(log)
  {
    hide Admitted, InOrder, AnswersFollow, SettledOnce, TurnInv, OrderInv, LogInv, SettleInv;
    var i := m.worker;
    match m.action
    case Send =>
      SendIsNext(s, n, i);
      LogGrows(s.log, Sent(i));
    case SendFails | AnswerFails =>
      OpenRequest(s, n, i);
      LogGrows(s.log, Failed(i));
    case Answer =>
      OpenRequest(s, n, i);
      LogGrows(s.log, GotHeaders(i));
    case _ =>
  }

  lemma LogGrows(log: seq<Event>, e: Event)
    requires Admitted(log) && InOrder(log) && AnswersFollow(log) && SettledOnce(log)
    requires e.Sent? && e.worker > 0 ==> GotHeaders(e.worker - 1) in log || Failed(e.worker - 1) in log
    requires e.Sent? ==> forall p :: 0 <= p < |log| && log[p].Sent? ==> log[p].worker < e.worker
    requires e.GotHeaders? ==> Sent(e.worker) in log
    requires !e.Sent? ==> GotHeaders(e.worker) !in log && Failed(e.worker) !in log
    ensures Admitted(log + [e]) && InOrder(log + [e]) && AnswersFollow(log + [e]) && SettledOnce(log + [e])
  {
    hide Admitted, InOrder, AnswersFollow, SettledOnce;
    AppendEvent(log, e);
    AppendAnswer(log, e);
    AppendSettled(log, e);
  }

  /** A request that is not settled in its phase is not settled in the log, and one that waits was sent. */
  lemma OpenRequest(s: State, n: nat, i: nat)
    requires Shape(s, n) && SettleInv(s, n) && i < n
    requires s.workers[i].phase == Connecting || s.workers[i].phase == Requested
    ensures GotHeaders(i) !in s.log && Failed(i) !in s.log
    ensures s.workers[i].phase == Requested ==> Sent(i) in s.log
  {
  }

  lemma StepInv(s: State, n: nat, m: Move)
    requires Inv(s, n) && Enabled(s, m)
    ensures Inv(Apply(s, m), n)
  {
    hide Apply, Admitted, InOrder, AnswersFollow, SettledOnce, OrderInv, LogInv, SettleInv, TurnInv,
      Enabled;
    TurnStep(s, n, m);
    OrderStep(s, n, m);
    LogStep(s, n, m);
    SettleStep(s, n, m);
    LogOrderStep(s, n, m);
  }

  // ---- Safety over every run -----------------------------------------------------

  lemma {:induction false} RunInv(n: nat, schedule: seq<Move>)
    requires n > 0 && Execute(n, schedule).Some?
    ensures Inv(Execute(n, schedule).value, n)
    decreases |schedule|
  {
    hide Inv, Apply;
    if |schedule| == 0 {
      InitInv(n);
    } else {
      var last := |schedule| - 1;
      RunInv(n, schedule[..last]);
      StepInv(Execute(n, schedule[..last]).value, n, schedule[last]);
    }
  }

  /** In every reachable state the set turn events form an index prefix. */
  lemma TurnsFormPrefix(n: nat, schedule: seq<Move>, i: nat, j: nat)
    requires n > 0 && Execute(n, schedule).Some? && i < j < n
    ensures var s := Execute(n, schedule).value;
            |s.turns| == n && (s.turns[j] ==> s.turns[i])
  {
    hide Execute, LogInv, SettleInv, Admitted, InOrder, AnswersFollow, SettledOnce;
    RunInv(n, schedule);
  }

  /** In every run the requests go out one by one in index order, and request i + 1 only after request i has
      its response headers or has failed. Headers answer a request that was sent, and no request is settled twice. */
  lemma RequestsAreAdmittedInOrder(n: nat, schedule: seq<Move>)
    requires n > 0 && Execute(n, schedule).Some?
    ensures var log := Execute(n, schedule).value.log;
            Admitted(log) && InOrder(log) && AnswersFollow(log) && SettledOnce(log)
  {
    hide Execute, LogInv, SettleInv, Admitted, InOrder, AnswersFollow, SettledOnce;
    RunInv(n, schedule);
  }

  /** Sending is exclusive: two workers are never both between wake-up and release. */
  lemma OneRequestInAdmission(n: nat, schedule: seq<Move>, i: nat, j: nat)
    requires n > 0 && Execute(n, schedule).Some? && i < j < n
    ensures var s := Execute(n, schedule).value;
            |s.workers| == n &&
            (s.workers[i].phase == Waiting || Past(s.workers[i].phase)
             || s.workers[j].phase == Waiting || Past(s.workers[j].phase))
  {
    hide Execute, LogInv, SettleInv, Admitted, InOrder, AnswersFollow, SettledOnce;
    RunInv(n, schedule);
    var s := Execute(n, schedule).value;
    assert j < n - 1 ==> Fits(s.workers[j], s.turns[j], s.turns[j + 1]);
  }

  // ---- Every worker finishes -----------------------------------------------------

  function Rank(p: Phase): nat {
    match p
    case Waiting => 6
    case Connecting => 5
    case Requested => 4
    case Answered => 3
    case Reading => 2
    case Unwinding => 1
    case Finished => 0
  }

  function TotalRank(ws: seq<Worker>): nat {
    if |ws| == 0 then 0 else Rank(ws[0].phase) + TotalRank(ws[1..])
  }

  lemma {:induction false} RankUpdate(ws: seq<Worker>, i: nat, w: Worker)
    requires i < |ws|
    ensures TotalRank(ws[i := w]) == TotalRank(ws) - Rank(ws[i].phase) + Rank(w.phase)
  {
    if i == 0 {
      assert ws[i := w][1..] == ws[1..];
    } else {
      assert ws[i := w][1..] == ws[1..][i - 1 := w];
      RankUpdate(ws[1..], i - 1, w);
    }
  }

  lemma {:induction false} InitialRank(ws: seq<Worker>)
    requires forall i :: 0 <= i < |ws| ==> ws[i].phase == Waiting
    ensures TotalRank(ws) == 6 * |ws|
  {
    if |ws| > 0 { InitialRank(ws[1..]); }
  }

  lemma StepLowersRank(s: State, m: Move)
    requires Enabled(s, m)
    ensures TotalRank(Apply(s, m).workers) < TotalRank(s.workers)
  {
    hide TotalRank;
    RankUpdate(s.workers, m.worker, Apply(s, m).workers[m.worker]);
    assert Apply(s, m).workers == s.workers[m.worker := Apply(s, m).workers[m.worker]];
  }

  /** Every run is over after at most six moves per worker. */
  lemma {:induction false} RunsAreBounded(n: nat, schedule: seq<Move>)
    requires n > 0 && Execute(n, schedule).Some?
    ensures |schedule| + TotalRank(Execute(n, schedule).value.workers) <= 6 * n
    decreases |schedule|
  {
    hide Apply, TotalRank, Enabled;
    if |schedule| == 0 {
      InitialRank(Init(n).workers);
    } else {
      var last := |schedule| - 1;
      RunsAreBounded(n, schedule[..last]);
      StepLowersRank(Execute(n, schedule[..last]).value, schedule[last]);
    }
  }

  function NextAction(p: Phase): Action {
    match p
    case Waiting => Wake
    case Connecting => Send
    case Requested => Answer
    case Answered => Release
    case Reading => BodyEnds
    case Unwinding => Unwind
    case Finished => Unwind
  }

  /** A reachable state in which nothing can move has every worker finished: no worker is left waiting for a
      turn, whichever requests failed. */
  lemma NoWorkerIsStranded(n: nat, schedule: seq<Move>, i: nat)
    requires n > 0 && Execute(n, schedule).Some? && i < n
    requires forall m :: !Enabled(Execute(n, schedule).value, m)
    ensures |Execute(n, schedule).value.workers| == n && Execute(n, schedule).value.workers[i].phase == Finished
    decreases i
  {
    hide Execute, LogInv, SettleInv, Admitted, InOrder, AnswersFollow, SettledOnce;
    RunInv(n, schedule);
    var s := Execute(n, schedule).value;
    if i > 0 {
      NoWorkerIsStranded(n, schedule, i - 1);
      assert s.turns[(i - 1) + 1];
    }
    assert !Enabled(s, Move(i, NextAction(s.workers[i].phase)));
  }

  /** A run that cannot be continued has an answer or a failure for every request. */
  lemma EveryRequestIsSettled(n: nat, schedule: seq<Move>, i: nat)
    requires n > 0 && Execute(n, schedule).Some? && i < n
    requires forall m :: !Enabled(Execute(n, schedule).value, m)
    ensures GotHeaders(i) in Execute(n, schedule).value.log || Failed(i) in Execute(n, schedule).value.log
  {
    hide Execute, SettleInv, Admitted, InOrder, AnswersFollow, SettledOnce;
    RunInv(n, schedule);
    NoWorkerIsStranded(n, schedule, i);
  }

  // ---- Every combination of failures can happen ----------------------------------

  datatype Fate = Succeeds | FailsToSend | FailsToAnswer

  /** One worker from its turn to its end. */
  function Course(i: nat, fate: Fate): seq<Move> {
    match fate
    case Succeeds =>
      [Move(i, Wake), Move(i, Send), Move(i, Answer), Move(i, Release), Move(i, BodyEnds), Move(i, Unwind)]
    case FailsToSend => [Move(i, Wake), Move(i, SendFails), Move(i, Unwind)]
    case FailsToAnswer => [Move(i, Wake), Move(i, Send), Move(i, AnswerFails), Move(i, Unwind)]
  }

  /** The workers one after the other. */
  function Courses(fates: seq<Fate>): seq<Move> {
    if |fates| == 0 then [] else Courses(fates[..|fates| - 1]) + Course(|fates| - 1, fates[|fates| - 1])
  }

  /** The first workers have met their fates, the next one has its turn, and the others wait. */
  ghost predicate HaveMet(s: State, n: nat, fates: seq<Fate>) {
    && |s.turns| == |s.workers| == n && |fates| <= n
    && (forall k :: 0 <= k < |fates| ==> s.workers[k].phase == Finished)
    && (forall k :: |fates| <= k < n ==> s.workers[k] == Worker(Waiting, false))
    && (|fates| < n ==> s.turns[|fates|])
    && (forall k :: 0 <= k < |fates| ==> (Failed(k) in s.log <==> fates[k] != Succeeds))
    && (forall k :: 0 <= k < |fates| ==> (Sent(k) in s.log <==> fates[k] != FailsToSend))
    && (forall e :: e in s.log ==> e.worker < |fates|)
  }

  lemma ExecuteMove(n: nat, schedule: seq<Move>, m: Move)
    requires n > 0 && Execute(n, schedule).Some? && Enabled(Execute(n, schedule).value, m)
    ensures Execute(n, schedule + [m]) == Some(Apply(Execute(n, schedule).value, m))
  {
    assert (schedule + [m])[..|schedule|] == schedule;
  }

  /** The state after worker i has met its fate. */
  function Met(s: State, i: nat, fate: Fate): State
    requires i < |s.workers| == |s.turns|
  {
    State(if i + 1 < |s.turns| then s.turns[i + 1 := true] else s.turns,
          s.workers[i := Worker(Finished, fate == Succeeds && i + 1 < |s.turns|)],
          s.log + match fate
                  case Succeeds => [Sent(i), GotHeaders(i)]
                  case FailsToSend => [Failed(i)]
                  case FailsToAnswer => [Sent(i), Failed(i)])
  }

  /** From the headers on to the end. */
  lemma CourseEnds(n: nat, schedule: seq<Move>, i: nat)
    requires n > 0 && Execute(n, schedule).Some?
    requires var s := Execute(n, schedule).value;
             i < |s.workers| == |s.turns| && s.workers[i] == Worker(Answered, false)
    ensures var s := Execute(n, schedule).value;
            Execute(n, schedule + [Move(i, Release), Move(i, BodyEnds), Move(i, Unwind)])
            == Some(State(if i + 1 < |s.turns| then s.turns[i + 1 := true] else s.turns,
                          s.workers[i := Worker(Finished, i + 1 < |s.turns|)], s.log))
  {
    hide Execute;
    var d := schedule + [Move(i, Release)];
    var e := d + [Move(i, BodyEnds)];
    ExecuteMove(n, schedule, Move(i, Release));
    ExecuteMove(n, d, Move(i, BodyEnds));
    ExecuteMove(n, e, Move(i, Unwind));
    assert schedule + [Move(i, Release), Move(i, BodyEnds), Move(i, Unwind)] == e + [Move(i, Unwind)];
    var ws := Execute(n, schedule).value.workers;
    var r := i + 1 < |ws|;
    assert ws[i := Worker(Reading, r)][i := Worker(Unwinding, r)][i := Worker(Finished, r)]
        == ws[i := Worker(Finished, r)];
  }

  lemma CourseOfSuccess(n: nat, schedule: seq<Move>, s: State, i: nat)
    requires n > 0 && Execute(n, schedule) == Some(s) && i < |s.workers| == |s.turns|
    requires s.workers[i] == Worker(Waiting, false) && s.turns[i]
    ensures Execute(n, schedule + Course(i, Succeeds)) == Some(Met(s, i, Succeeds))
  {
    hide Execute;
    var a := schedule + [Move(i, Wake)];
    var b := a + [Move(i, Send)];
    var c := b + [Move(i, Answer)];
    ExecuteMove(n, schedule, Move(i, Wake));
    ExecuteMove(n, a, Move(i, Send));
    ExecuteMove(n, b, Move(i, Answer));
    CourseEnds(n, c, i);
    assert schedule + Course(i, Succeeds) == c + [Move(i, Release), Move(i, BodyEnds), Move(i, Unwind)];
    assert s.log + [Sent(i)] + [GotHeaders(i)] == s.log + [Sent(i), GotHeaders(i)];
    var r := i + 1 < |s.workers|;
    assert s.workers[i := Worker(Connecting, false)][i := Worker(Requested, false)][i := Worker(Answered, false)]
                    [i := Worker(Finished, r)] == s.workers[i := Worker(Finished, r)];
  }

  lemma CourseOfFailedSend(n: nat, schedule: seq<Move>, s: State, i: nat)
    requires n > 0 && Execute(n, schedule) == Some(s) && i < |s.workers| == |s.turns|
    requires s.workers[i] == Worker(Waiting, false) && s.turns[i]
    ensures Execute(n, schedule + Course(i, FailsToSend)) == Some(Met(s, i, FailsToSend))
  {
    hide Execute;
    var a := schedule + [Move(i, Wake)];
    var b := a + [Move(i, SendFails)];
    ExecuteMove(n, schedule, Move(i, Wake));
    ExecuteMove(n, a, Move(i, SendFails));
    ExecuteMove(n, b, Move(i, Unwind));
    assert schedule + Course(i, FailsToSend) == b + [Move(i, Unwind)];
    assert s.workers[i := Worker(Connecting, false)][i := Worker(Unwinding, false)][i := Worker(Finished, false)]
        == s.workers[i := Worker(Finished, false)];
  }

  lemma CourseOfFailedAnswer(n: nat, schedule: seq<Move>, s: State, i: nat)
    requires n > 0 && Execute(n, schedule) == Some(s) && i < |s.workers| == |s.turns|
    requires s.workers[i] == Worker(Waiting, false) && s.turns[i]
    ensures Execute(n, schedule + Course(i, FailsToAnswer)) == Some(Met(s, i, FailsToAnswer))
  {
    hide Execute;
    var a := schedule + [Move(i, Wake)];
    var b := a + [Move(i, Send)];
    var c := b + [Move(i, AnswerFails)];
    ExecuteMove(n, schedule, Move(i, Wake));
    ExecuteMove(n, a, Move(i, Send));
    ExecuteMove(n, b, Move(i, AnswerFails));
    ExecuteMove(n, c, Move(i, Unwind));
    assert schedule + Course(i, FailsToAnswer) == c + [Move(i, Unwind)];
    assert s.log + [Sent(i)] + [Failed(i)] == s.log + [Sent(i), Failed(i)];
    assert s.workers[i := Worker(Connecting, false)][i := Worker(Requested, false)][i := Worker(Unwinding, false)]
                    [i := Worker(Finished, false)] == s.workers[i := Worker(Finished, false)];
  }

  /** A worker whose turn it is can meet any fate. */
  lemma OneCourse(n: nat, schedule: seq<Move>, s: State, i: nat, fate: Fate)
    requires n > 0 && Execute(n, schedule) == Some(s) && i < |s.workers| == |s.turns|
    requires s.workers[i] == Worker(Waiting, false) && s.turns[i]
    ensures Execute(n, schedule + Course(i, fate)) == Some(Met(s, i, fate))
  {
    hide Execute, Course, Met;
    match fate
    case Succeeds => CourseOfSuccess(n, schedule, s, i);
    case FailsToSend => CourseOfFailedSend(n, schedule, s, i);
    case FailsToAnswer => CourseOfFailedAnswer(n, schedule, s, i);
  }

  lemma MetKeeps(s: State, n: nat, fates: seq<Fate>, fate: Fate)
    requires HaveMet(s, n, fates) && |fates| < n
    ensures HaveMet(Met(s, |fates|, fate), n, fates + [fate])
  {
    var i, s' := |fates|, Met(s, |fates|, fate);
    var added := match fate
                 case Succeeds => [Sent(i), GotHeaders(i)]
                 case FailsToSend => [Failed(i)]
                 case FailsToAnswer => [Sent(i), Failed(i)];
    assert s'.log == s.log + added;
    assert forall e :: e in s'.log <==> e in s.log || e in added;
  }

  /** Whatever fates the requests of a batch meet, some run leads there: all workers finished, exactly the given
      requests sent, and exactly the given ones failed. */
  lemma {:induction false} AnyFatesCanBeMet(n: nat, fates: seq<Fate>)
    requires n > 0 && |fates| <= n
    ensures Execute(n, Courses(fates)).Some? && HaveMet(Execute(n, Courses(fates)).value, n, fates)
    decreases |fates|
  {
    hide Execute, Apply, Course, Met;
    if |fates| == 0 {
      NothingExecuted(n);
    } else {
      var front, last := fates[..|fates| - 1], fates[|fates| - 1];
      AnyFatesCanBeMet(n, front);
      var s := Execute(n, Courses(front)).value;
      OneCourse(n, Courses(front), s, |front|, last);
      MetKeeps(s, n, front, last);
      assert fates == front + [last];
    }
  }

  lemma NothingExecuted(n: nat)
    requires n > 0
    ensures Execute(n, []) == Some(Init(n)) && HaveMet(Init(n), n, [])
  {
  }
}
