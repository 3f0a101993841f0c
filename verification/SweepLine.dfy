/**
 One dimension of the line sweep: the ordered set of start and end events of a family of
 intervals, and the running set of ids obtained by walking over it.
 */
module SweepLine {

  datatype Kind = Start | End

  datatype Event = Event(kind: Kind, at: int, id: nat)

  datatype Interval = Interval(lo: int, hi: int)

  /** The order of the event set. The kind of the event is not part of it. */
  predicate Before(a: Event, b: Event) {
    a.at < b.at || (a.at == b.at && a.id < b.id)
  }

  ghost predicate Sorted(es: seq<Event>) {
    forall i, j :: 0 <= i < j < |es| ==> Before(es[i], es[j])
  }

  ghost predicate IsEventOf(e: Event, ivs: seq<Interval>, ids: set<nat>) {
    && e.id in ids
    && e.id < |ivs|
    && e.at == if e.kind == Start then ivs[e.id].lo else ivs[e.id].hi
  }

  /** Every id stands for an interval that is not empty. */
  ghost predicate Proper(ivs: seq<Interval>, ids: set<nat>) {
    forall i :: i in ids ==> i < |ivs| && ivs[i].lo < ivs[i].hi
  }

  /** `es` holds exactly the two events of each interval in `ids`, in order. */
  ghost predicate EventsOf(es: seq<Event>, ivs: seq<Interval>, ids: set<nat>) {
    && Proper(ivs, ids)
    && Sorted(es)
    && forall e :: e in es <==> IsEventOf(e, ivs, ids)
  }

  /** Insertion into the ordered set: nothing happens when an equivalent event is there. */
  function Insert(es: seq<Event>, e: Event): (r: seq<Event>)
    ensures Sorted(es) ==> Sorted(r)
    ensures forall x :: x in r ==> x in es || x == e
    ensures forall x :: x in es ==> x in r
    ensures (forall x :: x in es ==> Before(x, e) || Before(e, x)) ==> e in r
  {
    if es == [] then [e]
    else if Before(e, es[0]) then [e] + es
    else if !Before(es[0], e) then es
    else
      var tail := Insert(es[1..], e);
      assert forall x :: x in es ==> x == es[0] || x in es[1..];
      assert Sorted(es) ==> Sorted(es[1..]) && forall x :: x in tail ==> Before(es[0], x);
      [es[0]] + tail
  }

  /** The position of the event equivalent to `e`, or |es| (the end iterator). */
  function Find(es: seq<Event>, e: Event): (i: nat)
    ensures i <= |es|
    ensures i < |es| ==> !Before(es[i], e) && !Before(e, es[i])
    ensures forall j :: 0 <= j < i ==> Before(es[j], e) || Before(e, es[j])
  {
    if es == [] || (!Before(es[0], e) && !Before(e, es[0])) then 0 else 1 + Find(es[1..], e)
  }

  function Erase(es: seq<Event>, i: nat): seq<Event>
    requires i < |es|
  {
    es[..i] + es[i + 1..]
  }

  /** The running set of ids after walking over `es`. */
  function Running(es: seq<Event>): set<nat> {
    if es == [] then {}
    else
      var before, last := Running(es[..|es| - 1]), es[|es| - 1];
      if last.kind == Start then before + {last.id} else before - {last.id}
  }

  /** The ids whose interval contains `y`. */
  function At(ivs: seq<Interval>, ids: set<nat>, y: int): set<nat> {
    set i | i in ids && i < |ivs| && ivs[i].lo <= y < ivs[i].hi
  }

  lemma {:induction false} RunningStep(es: seq<Event>, k: nat)
    requires k < |es|
    ensures Running(es[..k + 1])
         == if es[k].kind == Start then Running(es[..k]) + {es[k].id} else Running(es[..k]) - {es[k].id}
  {
    assert es[..k + 1][..k] == es[..k];
  }

  /** An id is in the running set between its start and its end event. */
  lemma {:induction false} RunningIsBetween(es: seq<Event>, ivs: seq<Interval>, ids: set<nat>, k: nat, i: nat)
    requires EventsOf(es, ivs, ids)
    requires k <= |es|
    ensures i in Running(es[..k]) <==>
            i in ids && Event(Start, ivs[i].lo, i) in es[..k] && Event(End, ivs[i].hi, i) !in es[..k]
  {
    if k > 0 {
      RunningIsBetween(es, ivs, ids, k - 1, i);
      RunningStep(es, k - 1);
      var e := es[k - 1];
      assert e in es;
      assert es[..k] == es[..k - 1] + [e];
      if i in ids && e.id == i && e.kind == Start {
        var end := Event(End, ivs[i].hi, i);
        assert forall j :: 0 <= j < k - 1 ==> es[j] != end;
      }
    }
  }

  /** Between two stops the running set is the set of intervals that contain the coordinate. */
  lemma {:induction false} RunningIsAt(es: seq<Event>, ivs: seq<Interval>, ids: set<nat>, k: nat, y: int)
    requires EventsOf(es, ivs, ids)
    requires k <= |es|
    requires k > 0 ==> es[k - 1].at <= y
    requires k < |es| ==> y < es[k].at
    ensures Running(es[..k]) == At(ivs, ids, y)
  {
    forall i: nat
      ensures i in Running(es[..k]) <==> i in At(ivs, ids, y)
    {
      RunningIsBetween(es, ivs, ids, k, i);
      if i in ids {
        SeenIffReached(es, ivs, ids, k, y, Event(Start, ivs[i].lo, i));
        SeenIffReached(es, ivs, ids, k, y, Event(End, ivs[i].hi, i));
      }
    }
  }

  lemma {:induction false} SeenIffReached(es: seq<Event>, ivs: seq<Interval>, ids: set<nat>, k: nat, y: int, e: Event)
    requires EventsOf(es, ivs, ids) && IsEventOf(e, ivs, ids)
    requires k <= |es|
    requires k > 0 ==> es[k - 1].at <= y
    requires k < |es| ==> y < es[k].at
    ensures e in es[..k] <==> e.at <= y
  {
    assert e in es;
    var j :| 0 <= j < |es| && es[j] == e;
    if j < k {
      assert es[..k][j] == e;
      assert j < k - 1 ==> Before(es[j], es[k - 1]);
    } else {
      assert j > k ==> Before(es[k], es[j]);
    }
  }

  /** Inserting the two events of a new interval keeps the event set exact. */
  lemma {:induction false} InsertInterval(es: seq<Event>, ivs: seq<Interval>, ids: set<nat>, i: nat)
    requires EventsOf(es, ivs, ids)
    requires i !in ids && i < |ivs| && ivs[i].lo < ivs[i].hi
    ensures EventsOf(Insert(Insert(es, Event(Start, ivs[i].lo, i)), Event(End, ivs[i].hi, i)), ivs, ids + {i})
  {
    var start, end := Event(Start, ivs[i].lo, i), Event(End, ivs[i].hi, i);
    var es1 := Insert(es, start);
    forall x | x in es
      ensures Before(x, start) || Before(start, x)
      ensures Before(x, end) || Before(end, x)
    {
      assert IsEventOf(x, ivs, ids);
    }
    assert start in es1;
    var es2 := Insert(es1, end);
    assert end in es2;
    forall e
      ensures e in es2 <==> IsEventOf(e, ivs, ids + {i})
    {
      assert e in es <==> IsEventOf(e, ivs, ids);
    }
  }

  /** Both lookups of the removal succeed, and removing them keeps the event set exact. */
  lemma {:induction false} EraseInterval(es: seq<Event>, ivs: seq<Interval>, ids: set<nat>, i: nat)
    requires EventsOf(es, ivs, ids)
    requires i in ids
    ensures var a := Find(es, Event(Start, ivs[i].lo, i));
            && a < |es|
            && var es1 := Erase(es, a);
            var b := Find(es1, Event(End, ivs[i].hi, i));
            && b < |es1|
            && EventsOf(Erase(es1, b), ivs, ids - {i})
  {
    var start, end := Event(Start, ivs[i].lo, i), Event(End, ivs[i].hi, i);
    FindHits(es, start);
    FindHits(es, end);
    var a := Find(es, start);
    EraseOne(es, a);
    var es1 := Erase(es, a);
    FindHits(es1, end);
    var b := Find(es1, end);
    EraseOne(es1, b);
    forall e
      ensures e in Erase(es1, b) <==> IsEventOf(e, ivs, ids - {i})
    {
      assert e in es <==> IsEventOf(e, ivs, ids);
    }
  }

  lemma {:induction false} FindHits(es: seq<Event>, e: Event)
    requires Sorted(es)
    requires IsIn(es, e)
    ensures Find(es, e) < |es| && es[Find(es, e)] == e
  {
    var j :| 0 <= j < |es| && es[j] == e;
    assert Find(es, e) == j;
  }

  ghost predicate IsIn(es: seq<Event>, e: Event) {
    e in es
  }

  lemma {:induction false} EraseOne(es: seq<Event>, a: nat)
    requires Sorted(es) && a < |es|
    ensures Sorted(Erase(es, a))
    ensures forall x :: x in Erase(es, a) <==> x in es && x != es[a]
  {
    var r := Erase(es, a);
    forall x
      ensures x in r <==> x in es && x != es[a]
    {
      if x in es && x != es[a] {
        var j :| 0 <= j < |es| && es[j] == x;
        assert x == if j < a then r[j] else r[j - 1];
      }
      if x in r {
        var j :| 0 <= j < |r| && r[j] == x;
        assert x == es[if j < a then j else j + 1];
      }
    }
  }
}
