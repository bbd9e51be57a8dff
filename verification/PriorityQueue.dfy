/**
 PriorityQueueT when calls do not overlap: the object itself, with its mask walk and safety
 net, proved to deliver highest priority first and first-in-first-out within a band.
 */
module PriorityQueue {
  import opened Options
  import opened QueueProtocol

  /** Everything queued in delivery order: bands below k, highest first. */
  function Pending<T>(bands: seq<seq<T>>, k: nat): seq<T>
    requires k <= |bands|
  {
    if k == 0 then [] else bands[k - 1] + Pending(bands, k - 1)
  }

  class Queue<T> {
    var bands: seq<seq<T>>
    var nonEmpty: set<nat>
    var sema: nat

    /** The mask marks every non-empty band, and the semaphore counts the messages. */
    ghost predicate Valid()
      reads this
    {
      && Typed()
      && MaskComplete(bands, nonEmpty)
      && sema == |Contents()|
    }

    ghost predicate Typed()
      reads this
    {
      |bands| == BANDS && forall c :: c in nonEmpty ==> c < BANDS
    }

    ghost function Contents(): seq<T>
      requires |bands| == BANDS
      reads this
    {
      Pending(bands, BANDS)
    }

    constructor ()
      ensures Valid() && Contents() == []
    {
      bands := seq(BANDS, _ => []);
      nonEmpty, sema := {}, 0;
      new;
      PendingNone(bands, BANDS);
    }

    /** The message joins the end of its clamped priority's band. */
    method Enqueue(prio: int, m: T)
      requires Valid()
      modifies this
      ensures Valid()
      ensures bands == old(bands)[Band(prio) := old(bands)[Band(prio)] + [m]]
      ensures Contents() == Pushed(old(bands), BANDS, Band(prio), m)
    {
      var b := Band(prio);
      PendingPushed(bands, BANDS, b, m);
      bands := bands[b := bands[b] + [m]];
      nonEmpty := nonEmpty + {b};
      sema := sema + 1;
    }

    /** Fails exactly when empty; otherwise takes the first message in delivery order. */
    method TryDequeue() returns (r: Option<T>)
      requires Valid()
      modifies this
      ensures Valid()
      ensures r.None? <==> old(Contents()) == []
      ensures r.None? ==> bands == old(bands)
      ensures r.Some? ==> [r.value] + Contents() == old(Contents())
      ensures r.Some? ==> TookTop(old(bands), bands, r.value)
    {
      PendingNone(bands, BANDS);
      if sema == 0 {
        return None;
      }
      sema := sema - 1;
      r := DequeueFromBandsOrReturnToken();
      if r.Some? {
        TopPopped(old(bands), bands, r.value);
      }
    }

    /** Called with one token taken: the token is spent on a message or handed back. */
    method DequeueFromBandsOrReturnToken() returns (r: Option<T>)
      requires Typed()
      modifies this
      ensures Typed()
      ensures r.None? <==> AllEmpty(old(bands))
      ensures r.None? ==> bands == old(bands) && sema == old(sema) + 1
      ensures r.Some? ==> (exists b: nat :: Took(old(bands), bands, b, r.value)) && sema == old(sema)
      ensures MaskComplete(old(bands), old(nonEmpty)) ==>
        MaskComplete(bands, nonEmpty) && (r.Some? ==> TookTop(old(bands), bands, r.value))
    {
      r := DequeueFromBands();
      if r.None? {
        sema := sema + 1;
      }
    }

    /**
     Walk the mask from the top, clearing the bits of drained bands, then scan all bands: a
     message is found whenever there is one, whatever the mask says; it is the
     first of the highest non-empty band if the mask marks every non-empty band.
     */
    method DequeueFromBands() returns (r: Option<T>)
      requires Typed()
      modifies this`bands, this`nonEmpty
      ensures Typed()
      ensures r.None? <==> AllEmpty(old(bands))
      ensures r.None? ==> bands == old(bands)
      ensures r.Some? ==> exists b: nat :: Took(old(bands), bands, b, r.value)
      ensures MaskComplete(old(bands), old(nonEmpty)) ==>
        MaskComplete(bands, nonEmpty) && (r.Some? ==> TookTop(old(bands), bands, r.value))
    {
      while nonEmpty != {}
        invariant Typed() && bands == old(bands)
        invariant MaskComplete(old(bands), old(nonEmpty)) ==> MaskComplete(bands, nonEmpty)
        decreases |nonEmpty|
      {
        var band := Highest(nonEmpty, BANDS - 1);
        if bands[band] != [] {
          r := Some(bands[band][0]);
          bands := bands[band := bands[band][1..]];
          assert Took(old(bands), bands, band, r.value);
          return;
        }
        nonEmpty := nonEmpty - {band};
      }
      var band := BANDS;
      while band > 0
        invariant 0 <= band <= BANDS
        invariant Typed() && bands == old(bands) && nonEmpty == {}
        invariant MaskComplete(old(bands), old(nonEmpty)) ==> MaskComplete(bands, nonEmpty)
        invariant forall c :: band <= c < BANDS ==> bands[c] == []
      {
        band := band - 1;
        if bands[band] != [] {
          r := Some(bands[band][0]);
          bands := bands[band := bands[band][1..]];
          assert Took(old(bands), bands, band, r.value);
          return;
        }
      }
      r := None;
    }
  }

  // ---- Delivery order ----

  ghost predicate MaskComplete<T>(bands: seq<seq<T>>, mask: set<nat>) {
    forall b :: 0 <= b < |bands| && bands[b] != [] ==> b in mask
  }

  ghost predicate AllEmpty<T>(bands: seq<seq<T>>) {
    forall b :: 0 <= b < |bands| ==> bands[b] == []
  }

  /** The first message of band b, and nothing else, was taken. */
  ghost predicate Took<T>(bands: seq<seq<T>>, bands': seq<seq<T>>, b: nat, m: T) {
    b < |bands| && bands[b] != [] && m == bands[b][0] && bands' == bands[b := bands[b][1..]]
  }

  /** The oldest message of the highest non-empty band was taken. */
  ghost predicate TookTop<T>(bands: seq<seq<T>>, bands': seq<seq<T>>, m: T) {
    exists b: nat :: Took(bands, bands', b, m) && forall c :: b < c < |bands| ==> bands[c] == []
  }

  lemma TopPopped<T>(bands: seq<seq<T>>, bands': seq<seq<T>>, m: T)
    requires TookTop(bands, bands', m)
    ensures |bands'| == |bands| && [m] + Pending(bands', |bands'|) == Pending(bands, |bands|)
  {
    var b: nat :| Took(bands, bands', b, m) && forall c :: b < c < |bands| ==> bands[c] == [];
    PendingPopped(bands, |bands|, b);
  }

  /** Delivery order once m has joined the end of band b. */
  function Pushed<T>(bands: seq<seq<T>>, k: nat, b: nat, m: T): seq<T>
    requires b < k <= |bands|
  {
    if b == k - 1 then bands[b] + [m] + Pending(bands, b) else bands[k - 1] + Pushed(bands, k - 1, b, m)
  }

  lemma {:induction false} PendingNone<T>(bands: seq<seq<T>>, k: nat)
    requires k <= |bands|
    ensures Pending(bands, k) == [] <==> forall b :: 0 <= b < k ==> bands[b] == []
  {
    if k > 0 {
      assert |bands[k - 1]| <= |Pending(bands, k)|;
      assert |Pending(bands, k - 1)| <= |Pending(bands, k)|;
      PendingNone(bands, k - 1);
    }
  }

  lemma {:induction false} PendingSame<T>(bands: seq<seq<T>>, k: nat, b: nat, band: seq<T>)
    requires k <= b < |bands|
    ensures Pending(bands[b := band], k) == Pending(bands, k)
  {
    if k > 0 {
      PendingSame(bands, k - 1, b, band);
    }
  }

  lemma {:induction false} PendingPushed<T>(bands: seq<seq<T>>, k: nat, b: nat, m: T)
    requires b < k <= |bands|
    ensures Pending(bands[b := bands[b] + [m]], k) == Pushed(bands, k, b, m)
    ensures |Pushed(bands, k, b, m)| == |Pending(bands, k)| + 1
  {
    if b == k - 1 {
      PendingSame(bands, b, b, bands[b] + [m]);
    } else {
      PendingPushed(bands, k - 1, b, m);
    }
  }

  lemma {:induction false} PendingPopped<T>(bands: seq<seq<T>>, k: nat, b: nat)
    requires b < k <= |bands| && bands[b] != [] && forall c :: b < c < k ==> bands[c] == []
    ensures [bands[b][0]] + Pending(bands[b := bands[b][1..]], k) == Pending(bands, k)
  {
    if b == k - 1 {
      PendingSame(bands, b, b, bands[b][1..]);
      assert bands[b] == [bands[b][0]] + bands[b][1..];
    } else {
      PendingPopped(bands, k - 1, b);
    }
  }
}
