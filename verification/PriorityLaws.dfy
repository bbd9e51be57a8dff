/** The order in which a priority queue serves, in terms of the priorities and the order of the calls. */
module PriorityLaws {
  import opened Options
  import opened QueueProtocol
  import opened PriorityQueue

  /** A message with the number of its enqueue call. */
  datatype Ticket = Ticket(prio: int, number: nat)

  /** x is served before y: its priority, taken between 0 and 9, is higher, or it is as high and x came first. */
  predicate Earlier(x: Ticket, y: Ticket) {
    var a := if x.prio < 0 then 0 else if x.prio > 9 then 9 else x.prio;
    var b := if y.prio < 0 then 0 else if y.prio > 9 then 9 else y.prio;
    a > b || (a == b && x.number < y.number)
  }

  /** Each band has tickets of its own priority in the order of their numbers, all below next. */
  ghost predicate Ticketed(bands: seq<seq<Ticket>>, next: nat) {
    && |bands| == BANDS
    && (forall b, i :: 0 <= b < BANDS && 0 <= i < |bands[b]| ==> Band(bands[b][i].prio) == b && bands[b][i].number < next)
    && (forall b, i, j :: 0 <= b < BANDS && 0 <= i < j < |bands[b]| ==> bands[b][i].number < bands[b][j].number)
  }

  ghost predicate InTurn(s: seq<Ticket>) {
    forall i, j :: 0 <= i < j < |s| ==> Earlier(s[i], s[j])
  }

  lemma {:induction false} PendingInTurn(bands: seq<seq<Ticket>>, next: nat, k: nat)
    requires Ticketed(bands, next) && k <= BANDS
    ensures InTurn(Pending(bands, k)) && forall i :: 0 <= i < |Pending(bands, k)| ==> Band(Pending(bands, k)[i].prio) < k
  {
    if k > 0 {
      PendingInTurn(bands, next, k - 1);
      var top, rest := bands[k - 1], Pending(bands, k - 1);
      forall i, j | 0 <= i < j < |top + rest| ensures Earlier((top + rest)[i], (top + rest)[j]) {
        if j < |top| {
          assert Band(top[i].prio) == Band(top[j].prio);
        } else if i < |top| {
          assert Band(top[i].prio) > Band(rest[j - |top|].prio);
        } else {
          assert Earlier(rest[i - |top|], rest[j - |top|]);
        }
      }
    }
  }

  lemma EnqueuedBehind(bands: seq<seq<Ticket>>, next: nat, prio: int)
    requires Ticketed(bands, next)
    ensures Ticketed(bands[Band(prio) := bands[Band(prio)] + [Ticket(prio, next)]], next + 1)
  {
  }

  /** What is taken is served before everything that stays. */
  lemma TakenInTurn(bands: seq<seq<Ticket>>, bands': seq<seq<Ticket>>, next: nat, m: Ticket)
    requires Ticketed(bands, next) && TookTop(bands, bands', m)
    ensures Ticketed(bands', next) && forall x :: x in Pending(bands', BANDS) ==> Earlier(m, x)
  {
    TopPopped(bands, bands', m);
    PendingInTurn(bands, next, BANDS);
    var all := [m] + Pending(bands', BANDS);
    forall x | x in Pending(bands', BANDS) ensures Earlier(m, x) {
      var i :| 0 <= i < |Pending(bands', BANDS)| && Pending(bands', BANDS)[i] == x;
      assert all[0] == m && all[i + 1] == x;
    }
  }

  // ---- Any sequence of calls ----

  datatype Call = Enqueue(prio: int) | TryDequeue

  /** The tickets of the enqueue calls, numbered in their order. */
  function Tickets(calls: seq<Call>): seq<Ticket> {
    if calls == [] then []
    else
      var before, last := Tickets(calls[..|calls| - 1]), calls[|calls| - 1];
      if last.Enqueue? then before + [Ticket(last.prio, |before|)] else before
  }

  /** Enqueued by these calls and not among the answers. */
  predicate Open(calls: seq<Call>, answers: seq<Option<Ticket>>, x: Ticket) {
    x in Tickets(calls) && Some(x) !in answers
  }

  /** The answer to a call: the open ticket that is served before all other open ones; none exactly if none is open. */
  ghost predicate Right(before: seq<Call>, answers: seq<Option<Ticket>>, call: Call, answer: Option<Ticket>) {
    match answer
    case Some(m) => call.TryDequeue? && Open(before, answers, m) && forall x :: Open(before, answers, x) && x != m ==> Earlier(m, x)
    case None => call.TryDequeue? ==> forall x :: !Open(before, answers, x)
  }

  ghost predicate AllRight(calls: seq<Call>, answers: seq<Option<Ticket>>) {
    |answers| == |calls| && forall i :: 0 <= i < |calls| ==> Right(calls[..i], answers[..i], calls[i], answers[i])
  }

  /** The queue holds the open tickets. */
  ghost predicate HoldsOpen(bands: seq<seq<Ticket>>, calls: seq<Call>, answers: seq<Option<Ticket>>) {
    && Ticketed(bands, |Tickets(calls)|)
    && (forall x :: x in Pending(bands, BANDS) <==> Open(calls, answers, x))
    && (forall x :: Some(x) in answers ==> x.number < |Tickets(calls)|)
  }

  lemma {:induction false} PushedMembers(bands: seq<seq<Ticket>>, k: nat, b: nat, m: Ticket)
    requires b < k <= |bands|
    ensures forall x :: x in Pushed(bands, k, b, m) <==> x in Pending(bands, k) || x == m
  {
    if b < k - 1 {
      PushedMembers(bands, k - 1, b, m);
    }
  }

  lemma EnqueueHolds(bands: seq<seq<Ticket>>, calls: seq<Call>, answers: seq<Option<Ticket>>, prio: int)
    requires HoldsOpen(bands, calls, answers)
    ensures HoldsOpen(bands[Band(prio) := bands[Band(prio)] + [Ticket(prio, |Tickets(calls)|)]], calls + [Call.Enqueue(prio)], answers + [None])
  {
    var t := Ticket(prio, |Tickets(calls)|);
    assert (calls + [Call.Enqueue(prio)])[..|calls|] == calls;
    assert Tickets(calls + [Call.Enqueue(prio)]) == Tickets(calls) + [t];
    EnqueuedBehind(bands, |Tickets(calls)|, prio);
    PendingPushed(bands, BANDS, Band(prio), t);
    PushedMembers(bands, BANDS, Band(prio), t);
  }

  lemma NothingOpen(bands: seq<seq<Ticket>>)
    requires |bands| == BANDS && Pending(bands, BANDS) == []
    ensures HoldsOpen(bands, [], []) && AllRight([], []) && |Tickets([])| == 0
  {
    PendingNone(bands, BANDS);
  }

  lemma MoreTickets(calls: seq<Call>, call: Call)
    ensures |Tickets(calls + [call])| == |Tickets(calls)| + if call.Enqueue? then 1 else 0
  {
    assert (calls + [call])[..|calls|] == calls;
  }

  lemma EnqueueRight(calls: seq<Call>, answers: seq<Option<Ticket>>, prio: int)
    ensures Right(calls, answers, Call.Enqueue(prio), None)
  {
  }

  lemma NoneHolds(bands: seq<seq<Ticket>>, calls: seq<Call>, answers: seq<Option<Ticket>>)
    requires HoldsOpen(bands, calls, answers) && Pending(bands, BANDS) == []
    ensures HoldsOpen(bands, calls + [TryDequeue], answers + [None]) && Right(calls, answers, TryDequeue, None)
  {
    assert (calls + [TryDequeue])[..|calls|] == calls;
    forall x ensures !Open(calls, answers, x) {
      assert x !in Pending(bands, BANDS);
    }
  }

  lemma TakenHolds(bands: seq<seq<Ticket>>, bands': seq<seq<Ticket>>, calls: seq<Call>, answers: seq<Option<Ticket>>, m: Ticket)
    requires HoldsOpen(bands, calls, answers) && TookTop(bands, bands', m) && [m] + Pending(bands', BANDS) == Pending(bands, BANDS)
    ensures HoldsOpen(bands', calls + [TryDequeue], answers + [Some(m)]) && Right(calls, answers, TryDequeue, Some(m))
  {
    assert (calls + [TryDequeue])[..|calls|] == calls;
    TakenInTurn(bands, bands', |Tickets(calls)|, m);
    assert forall x :: x in Pending(bands, BANDS) <==> x == m || x in Pending(bands', BANDS);
    hide Earlier, Ticketed;
    assert !Earlier(m, m) by {
      NotEarlier(m);
    }
    assert m in Pending(bands, BANDS);
    TicketNumbers(calls);
  }

  lemma NotEarlier(m: Ticket)
    ensures !Earlier(m, m)
  {
  }

  lemma {:induction false} TicketNumbers(calls: seq<Call>)
    ensures forall x :: x in Tickets(calls) ==> x.number < |Tickets(calls)|
  {
    if calls != [] {
      TicketNumbers(calls[..|calls| - 1]);
    }
  }

  lemma RightOneMore(calls: seq<Call>, answers: seq<Option<Ticket>>, call: Call, answer: Option<Ticket>)
    requires AllRight(calls, answers) && Right(calls, answers, call, answer)
    ensures AllRight(calls + [call], answers + [answer])
  {
    hide Right;
    forall i | 0 <= i < |calls| + 1
      ensures Right((calls + [call])[..i], (answers + [answer])[..i], (calls + [call])[i], (answers + [answer])[i])
    {
      assert (calls + [call])[..i] == calls[..i] && (answers + [answer])[..i] == answers[..i];
      assert calls[..|calls|] == calls && answers[..|answers|] == answers;
    }
  }

  /**
   Whatever calls are made on an empty queue: each TryDequeue answers with the ticket that is served before all others
   enqueued so far and not yet served, and with nothing exactly if there is none.
   */
  method ServeAll(q: Queue<Ticket>, calls: seq<Call>) returns (answers: seq<Option<Ticket>>)
    requires q.Valid() && q.Contents() == []
    modifies q
    ensures q.Valid() && AllRight(calls, answers)
  {
    hide Right, AllRight, HoldsOpen, Tickets, Pending, MaskComplete, TookTop;
    answers := [];
    var next := 0;
    NothingOpen(q.bands);
    for i := 0 to |calls|
      invariant q.Valid() && |answers| == i && next == |Tickets(calls[..i])|
      invariant HoldsOpen(q.bands, calls[..i], answers) && AllRight(calls[..i], answers)
    {
      ghost var before, done := q.bands, calls[..i];
      assert calls[..i + 1] == done + [calls[i]];
      match calls[i]
      case Enqueue(prio) =>
        EnqueueHolds(before, done, answers, prio);
        EnqueueRight(done, answers, prio);
        MoreTickets(done, calls[i]);
        RightOneMore(done, answers, calls[i], None);
        q.Enqueue(prio, Ticket(prio, next));
        next := next + 1;
        answers := answers + [None];
      case TryDequeue =>
        var r := q.TryDequeue();
        if r.Some? {
          TakenHolds(before, q.bands, done, answers, r.value);
        } else {
          NoneHolds(before, done, answers);
        }
        RightOneMore(done, answers, calls[i], r);
        MoreTickets(done, calls[i]);
        answers := answers + [r];
    }
    assert calls[..|calls|] == calls;
  }
}
