/** The line sweep that splits overlapping rectangles into disjoint labelled pieces. */
module Sweep {
  import opened Rects
  import opened SweepLine

  /** The number of inputs the sweep accepts: the bits of the coordinate type, not of the id type. */
  const MAX_ELEMENTS: nat := 32

  /** The key of a started rectangle. Its left edge is not part of the key. */
  datatype Strip = Strip(top: int, bottom: int, ids: set<nat>)

  datatype Started = Started(left: int, seen: bool)

  /** From `y` down to the next stop the sweep line is covered by `ids`. */
  datatype Stop = Stop(y: int, ids: set<nat>)

  // ---------------------------------------------------------------- specification

  /** In column `x`, `s` is a maximal run of rows with the same non-empty cover. */
  ghost predicate IsRun(rects: seq<Rect>, x: int, s: Strip) {
    && s.ids != {}
    && s.top < s.bottom
    && (forall y :: s.top <= y < s.bottom ==> Cover(rects, x, y) == s.ids)
    && Cover(rects, x, s.top - 1) != s.ids
    && Cover(rects, x, s.bottom) != s.ids
  }

  function StripOf(p: RectSet): Strip {
    Strip(p.rect.top, p.rect.bottom, p.ids)
  }

  /** A maximal stretch of columns over which one strip is a run. */
  ghost predicate IsPiece(rects: seq<Rect>, p: RectSet) {
    && p.rect.left < p.rect.right
    && (forall x :: p.rect.left <= x < p.rect.right ==> IsRun(rects, x, StripOf(p)))
    && !IsRun(rects, p.rect.left - 1, StripOf(p))
    && !IsRun(rects, p.rect.right, StripOf(p))
  }

  ghost predicate Distinct<T>(s: seq<T>) {
    forall i, j :: 0 <= i < j < |s| ==> s[i] != s[j]
  }

  /** `out` lists every piece of the arrangement of `rects` once, and nothing else. */
  ghost predicate Separated(rects: seq<Rect>, out: seq<RectSet>) {
    && Distinct(out)
    && forall p :: p in out <==> IsPiece(rects, p)
  }

  // ---------------------------------------------------------------- one stop of the sweep

  function Columns(rects: seq<Rect>): seq<Interval> {
    seq(|rects|, i requires 0 <= i < |rects| => Interval(rects[i].left, rects[i].right))
  }

  function Rows(rects: seq<Rect>): seq<Interval> {
    seq(|rects|, i requires 0 <= i < |rects| => Interval(rects[i].top, rects[i].bottom))
  }

  lemma {:induction false} CoverByAxes(rects: seq<Rect>, x: int, y: int)
    ensures Cover(rects, x, y) == At(Rows(rects), At(Columns(rects), NonEmpty(rects), x), y)
  {
  }

  /** `stops` cuts the line at every change of the cover, and only there. */
  ghost predicate CrossSection(stops: seq<Stop>, ivs: seq<Interval>, ids: set<nat>) {
    && (forall i, j :: 0 <= i < j < |stops| ==> stops[i].y < stops[j].y)
    && (forall i, y :: 0 <= i < |stops| - 1 && stops[i].y <= y < stops[i + 1].y ==> At(ivs, ids, y) == stops[i].ids)
    && (forall i :: 0 <= i < |stops| ==> At(ivs, ids, stops[i].y) == stops[i].ids)
    && (forall i :: 0 <= i < |stops| ==> At(ivs, ids, stops[i].y - 1) != stops[i].ids)
    && (forall y :: |stops| == 0 || y < stops[0].y || stops[|stops| - 1].y <= y ==> At(ivs, ids, y) == {})
  }

  /** The strips between consecutive stops. */
  ghost function Strips(stops: seq<Stop>): set<Strip> {
    set i | 0 <= i < |stops| - 1 && stops[i].ids != {} :: Strip(stops[i].y, stops[i + 1].y, stops[i].ids)
  }

  lemma {:induction false} FindStop(stops: seq<Stop>, y: int) returns (i: nat)
    requires forall i, j :: 0 <= i < j < |stops| ==> stops[i].y < stops[j].y
    requires |stops| > 0 && stops[0].y <= y < stops[|stops| - 1].y
    ensures i < |stops| - 1 && stops[i].y <= y < stops[i + 1].y
  {
    i := 0;
    while stops[i + 1].y <= y
      invariant i < |stops| - 1 && stops[i].y <= y
    {
      i := i + 1;
    }
  }

  /** A run, stated in the one dimension of the sweep line. */
  ghost predicate IsLineRun(ivs: seq<Interval>, ids: set<nat>, s: Strip) {
    && s.ids != {}
    && s.top < s.bottom
    && (forall y :: s.top <= y < s.bottom ==> At(ivs, ids, y) == s.ids)
    && At(ivs, ids, s.top - 1) != s.ids
    && At(ivs, ids, s.bottom) != s.ids
  }

  lemma {:induction false} StripIsLineRun(stops: seq<Stop>, ivs: seq<Interval>, ids: set<nat>, i: nat)
    requires CrossSection(stops, ivs, ids)
    requires i < |stops| - 1 && stops[i].ids != {}
    ensures IsLineRun(ivs, ids, Strip(stops[i].y, stops[i + 1].y, stops[i].ids))
  {
    assert At(ivs, ids, stops[i + 1].y - 1) == stops[i].ids;
  }

  /** A run that meets a maximal stretch of equal cover is that stretch. */
  lemma {:induction false} RunIsStretch(ivs: seq<Interval>, ids: set<nat>, s: Strip, top: int, bottom: int)
    requires IsLineRun(ivs, ids, s)
    requires top <= s.top < bottom
    requires forall y :: top <= y < bottom ==> At(ivs, ids, y) == s.ids
    requires At(ivs, ids, top - 1) != s.ids && At(ivs, ids, bottom) != s.ids
    ensures s == Strip(top, bottom, s.ids)
  {
    assert top < s.top ==> At(ivs, ids, s.top - 1) == s.ids;
    assert s.bottom < bottom ==> At(ivs, ids, s.bottom) == s.ids;
    assert bottom < s.bottom ==> At(ivs, ids, bottom) == s.ids;
  }

  lemma {:induction false} LineRunIsStrip(stops: seq<Stop>, ivs: seq<Interval>, ids: set<nat>, s: Strip)
    requires CrossSection(stops, ivs, ids)
    requires IsLineRun(ivs, ids, s)
    ensures s in Strips(stops)
  {
    assert At(ivs, ids, s.top) == s.ids;
    var i := FindStop(stops, s.top);
    var top, bottom := stops[i].y, stops[i + 1].y;
    assert At(ivs, ids, bottom - 1) == s.ids;
    assert At(ivs, ids, bottom) == stops[i + 1].ids;
    RunIsStretch(ivs, ids, s, top, bottom);
  }

  /** The strips of a cross section are exactly the maximal runs of its column. */
  lemma {:induction false} RunsOfCrossSection(rects: seq<Rect>, x: int, stops: seq<Stop>)
    requires CrossSection(stops, Rows(rects), At(Columns(rects), NonEmpty(rects), x))
    ensures forall s :: s in Strips(stops) <==> IsRun(rects, x, s)
  {
    var ivs, ids := Rows(rects), At(Columns(rects), NonEmpty(rects), x);
    forall y ensures Cover(rects, x, y) == At(ivs, ids, y) {
      CoverByAxes(rects, x, y);
    }
    forall s
      ensures s in Strips(stops) <==> IsRun(rects, x, s)
    {
      assert IsRun(rects, x, s) <==> IsLineRun(ivs, ids, s);
      if IsRun(rects, x, s) {
        LineRunIsStrip(stops, ivs, ids, s);
      }
      if s in Strips(stops) {
        var i: nat :| i < |stops| - 1 && stops[i].ids != {} && s == Strip(stops[i].y, stops[i + 1].y, stops[i].ids);
        StripIsLineRun(stops, ivs, ids, i);
      }
    }
  }

  /** What the walk over the events knows after `k` of them. */
  ghost predicate Walked(stops: seq<Stop>, es: seq<Event>, k: nat, ivs: seq<Interval>, ids: set<nat>)
    requires k <= |es|
  {
    && (|stops| == 0 <==> k == 0)
    && (|stops| > 0 ==> stops[|stops| - 1] == Stop(es[k - 1].at, Running(es[..k])))
    && (forall i, j :: 0 <= i < j < |stops| ==> stops[i].y < stops[j].y)
    && (forall i, y :: 0 <= i < |stops| - 1 && stops[i].y <= y < stops[i + 1].y ==> At(ivs, ids, y) == stops[i].ids)
    && (forall i :: 0 <= i < |stops| ==> exists j :: 0 <= j < k && es[j].at == stops[i].y)
    && (|stops| > 0 ==> stops[0].y == es[0].at)
  }

  function Extend(stops: seq<Stop>, y: int, ids: set<nat>): seq<Stop> {
    if |stops| > 0 && stops[|stops| - 1].y == y
    then stops[|stops| - 1 := Stop(y, ids)]
    else stops + [Stop(y, ids)]
  }

  lemma {:induction false} WalkStep(stops: seq<Stop>, es: seq<Event>, k: nat, ivs: seq<Interval>, ids: set<nat>)
    requires EventsOf(es, ivs, ids)
    requires k < |es| && Walked(stops, es, k, ivs, ids)
    ensures Walked(Extend(stops, es[k].at, Running(es[..k + 1])), es, k + 1, ivs, ids)
  {
    var next := Extend(stops, es[k].at, Running(es[..k + 1]));
    assert k > 0 ==> Before(es[k - 1], es[k]);
    if |next| > |stops| {
      forall y | (k > 0 ==> es[k - 1].at <= y) && y < es[k].at
        ensures At(ivs, ids, y) == Running(es[..k])
      {
        RunningIsAt(es, ivs, ids, k, y);
      }
      forall i, y | 0 <= i < |next| - 1 && next[i].y <= y < next[i + 1].y
        ensures At(ivs, ids, y) == next[i].ids
      {
        assert next[i] == stops[i];
      }
    }
  }

  lemma {:induction false} WalkEnd(stops: seq<Stop>, es: seq<Event>, ivs: seq<Interval>, ids: set<nat>)
    requires EventsOf(es, ivs, ids)
    requires Walked(stops, es, |es|, ivs, ids)
    ensures CrossSection(stops, ivs, ids)
  {
    forall y | |es| == 0 || y < es[0].at || es[|es| - 1].at <= y
      ensures At(ivs, ids, y) == {}
    {
      OutsideEvents(es, ivs, ids, y);
    }
    if |es| > 0 {
      RunningIsAt(es, ivs, ids, |es|, es[|es| - 1].at);
    }
    forall i | 0 <= i < |stops|
      ensures At(ivs, ids, stops[i].y) == stops[i].ids
      ensures At(ivs, ids, stops[i].y - 1) != stops[i].ids
    {
      var j :| 0 <= j < |es| && es[j].at == stops[i].y;
      ChangesAtEvent(es[j], ivs, ids);
      if i < |stops| - 1 {
        assert stops[i].y < stops[i + 1].y;
      }
    }
  }

  lemma {:induction false} ChangesAtEvent(e: Event, ivs: seq<Interval>, ids: set<nat>)
    requires Proper(ivs, ids) && IsEventOf(e, ivs, ids)
    ensures At(ivs, ids, e.at - 1) != At(ivs, ids, e.at)
  {
    assert e.id in At(ivs, ids, e.at - 1) <==> e.kind == End;
    assert e.id in At(ivs, ids, e.at) <==> e.kind == Start;
  }

  lemma {:induction false} OutsideEvents(es: seq<Event>, ivs: seq<Interval>, ids: set<nat>, y: int)
    requires EventsOf(es, ivs, ids)
    requires |es| == 0 || y < es[0].at || es[|es| - 1].at <= y
    ensures At(ivs, ids, y) == {}
  {
    forall i | i in ids
      ensures i !in At(ivs, ids, y)
    {
      var start, end := Event(Start, ivs[i].lo, i), Event(End, ivs[i].hi, i);
      assert start in es && end in es;
      assert forall j :: 0 <= j < |es| ==> es[0].at <= es[j].at <= es[|es| - 1].at by {
        assert forall j :: 0 < j < |es| ==> Before(es[0], es[j]);
        assert forall j :: 0 <= j < |es| - 1 ==> Before(es[j], es[|es| - 1]);
      }
    }
  }

  /** Walks down the sweep line, recording each change of the running set. */
  method WalkDown(es: seq<Event>, ghost ivs: seq<Interval>, ghost ids: set<nat>) returns (stops: seq<Stop>)
    requires EventsOf(es, ivs, ids)
    ensures CrossSection(stops, ivs, ids)
    ensures |stops| > 0 ==> stops[|stops| - 1].ids == {}
  {
    stops := [];
    var active: set<nat> := {};
    for k := 0 to |es|
      invariant active == Running(es[..k])
      invariant Walked(stops, es, k, ivs, ids)
    {
      RunningStep(es, k);
      WalkStep(stops, es, k, ivs, ids);
      var e := es[k];
      if e.kind == Start {
        active := active + {e.id};
      } else {
        active := active - {e.id};
      }
      if |stops| > 0 && stops[|stops| - 1].y == e.at {
        stops := stops[|stops| - 1 := Stop(e.at, active)];
      } else {
        stops := stops + [Stop(e.at, active)];
      }
    }
    WalkEnd(stops, es, ivs, ids);
  }

  // ---------------------------------------------------------------- started rectangles

  /** Marks the strips of this stop as seen, starting those that are new at column `x`. */
  method MarkSeen(stops: seq<Stop>, x: int, started: map<Strip, Started>) returns (marked: map<Strip, Started>)
    requires |stops| > 0 ==> stops[|stops| - 1].ids == {}
    ensures marked.Keys == started.Keys + Strips(stops)
    ensures forall s :: s in marked ==>
              marked[s] == Started(if s in started then started[s].left else x, s in Strips(stops))
  {
    marked := map s | s in started :: started[s].(seen := false);
    for i := 0 to |stops|
      invariant marked.Keys == started.Keys + Strips(stops[..i + if i < |stops| then 1 else 0])
      invariant forall s :: s in marked ==>
                  marked[s] == Started(if s in started then started[s].left else x,
                                       s in Strips(stops[..i + if i < |stops| then 1 else 0]))
    {
      StripsStep(stops, i);
      if stops[i].ids == {} {
        continue;
      }
      // The list of stops always goes on below a non-empty one.
      assert i + 1 < |stops|;
      var key := Strip(stops[i].y, stops[i + 1].y, stops[i].ids);
      if key !in marked {
        marked := marked[key := Started(x, true)];
      } else {
        marked := marked[key := marked[key].(seen := true)];
      }
    }
    assert stops[..|stops|] == stops;
  }

  lemma {:induction false} StripsStep(stops: seq<Stop>, i: nat)
    requires i < |stops|
    requires stops[|stops| - 1].ids == {}
    ensures Strips(stops[..i + 1]) + (if stops[i].ids == {} then {} else {Strip(stops[i].y, stops[i + 1].y, stops[i].ids)})
         == Strips(stops[..i + 1 + if i + 1 < |stops| then 1 else 0])
  {
    var a, b := stops[..i + 1], stops[..i + 1 + if i + 1 < |stops| then 1 else 0];
    forall s
      ensures s in Strips(b) <==>
              s in Strips(a) || (stops[i].ids != {} && s == Strip(stops[i].y, stops[i + 1].y, stops[i].ids))
    {
      if s in Strips(b) {
        var j :| 0 <= j < |b| - 1 && b[j].ids != {} && s == Strip(b[j].y, b[j + 1].y, b[j].ids);
        if j < i {
          assert 0 <= j < |a| - 1 && a[j].ids != {} && s == Strip(a[j].y, a[j + 1].y, a[j].ids);
        }
      }
      if s in Strips(a) {
        var j :| 0 <= j < |a| - 1 && a[j].ids != {} && s == Strip(a[j].y, a[j + 1].y, a[j].ids);
        assert 0 <= j < |b| - 1 && b[j].ids != {} && s == Strip(b[j].y, b[j + 1].y, b[j].ids);
      }
      if stops[i].ids != {} && s == Strip(stops[i].y, stops[i + 1].y, stops[i].ids) {
        assert 0 <= i < |b| - 1 && b[i].ids != {} && s == Strip(b[i].y, b[i + 1].y, b[i].ids);
      }
    }
  }

  function Finished(s: Strip, left: int, x: int): RectSet {
    RectSet(s.ids, Rect(left, s.top, x, s.bottom))
  }

  /** Ends every started rectangle that was not seen at column `x`. */
  method EndUnseen(started: map<Strip, Started>, x: int, out: seq<RectSet>)
      returns (open: map<Strip, Started>, out': seq<RectSet>)
    requires Distinct(out) && forall p :: p in out ==> p.rect.right < x
    ensures open == map s | s in started && started[s].seen :: started[s]
    ensures Distinct(out')
    ensures forall p :: p in out' <==>
              p in out || (StripOf(p) in started && !started[StripOf(p)].seen
                           && p == Finished(StripOf(p), started[StripOf(p)].left, x))
  {
    open, out' := started, out;
    var unseen := set s | s in started && !started[s].seen;
    while unseen != {}
      invariant unseen <= started.Keys
      invariant forall s :: s in unseen ==> !started[s].seen
      invariant open == map s | s in started && (started[s].seen || s in unseen) :: started[s]
      invariant Distinct(out')
      invariant forall p :: p in out' <==>
                  p in out || (StripOf(p) in started && !started[StripOf(p)].seen && StripOf(p) !in unseen
                               && p == Finished(StripOf(p), started[StripOf(p)].left, x))
      decreases unseen
    {
      var s :| s in unseen;
      var p := Finished(s, started[s].left, x);
      assert StripOf(p) == s;
      out' := out' + [p];
      open := open - {s};
      unseen := unseen - {s};
    }
  }

  // ---------------------------------------------------------------- the sweep

  /** What is known before event `h`: every column left of it has been dealt with. */
  ghost predicate Swept(rects: seq<Rect>, hs: seq<Event>, h: nat, started: map<Strip, Started>, out: seq<RectSet>)
    requires h <= |hs|
  {
    && Distinct(out)
    && (forall p :: p in out ==> IsPiece(rects, p) && (h < |hs| ==> p.rect.right < hs[h].at))
    && (forall p :: IsPiece(rects, p) && (h < |hs| ==> p.rect.right < hs[h].at) ==> p in out)
    && if h < |hs| then OpenAt(rects, hs[h].at, started) else started == map[]
  }

  /** The started rectangles are the runs of the column before `x`, each with its first column. */
  ghost predicate OpenAt(rects: seq<Rect>, x: int, started: map<Strip, Started>) {
    && (forall s :: s in started <==> IsRun(rects, x - 1, s))
    && (forall s :: s in started ==> OpenSince(rects, started[s].left, x, s))
  }

  ghost predicate NoRuns(rects: seq<Rect>, c: int) {
    forall s :: !IsRun(rects, c, s)
  }

  ghost predicate SameRuns(rects: seq<Rect>, c: int, x: int) {
    forall s :: IsRun(rects, c, s) <==> IsRun(rects, x, s)
  }

  lemma {:induction false} SameColumn(rects: seq<Rect>, c: int, x: int)
    requires At(Columns(rects), NonEmpty(rects), c) == At(Columns(rects), NonEmpty(rects), x)
    ensures SameRuns(rects, c, x)
  {
    forall y
      ensures Cover(rects, c, y) == Cover(rects, x, y)
    {
      CoverByAxes(rects, c, y);
      CoverByAxes(rects, x, y);
    }
  }

  lemma {:induction false} BareColumn(rects: seq<Rect>, c: int)
    requires At(Columns(rects), NonEmpty(rects), c) == {}
    ensures NoRuns(rects, c)
  {
    forall y
      ensures Cover(rects, c, y) == {}
    {
      CoverByAxes(rects, c, y);
    }
    forall s
      ensures !IsRun(rects, c, s)
    {
      assert Cover(rects, c, s.top) == {};
    }
  }

  lemma {:induction false} SweepStart(rects: seq<Rect>, hs: seq<Event>)
    requires EventsOf(hs, Columns(rects), NonEmpty(rects))
    ensures Swept(rects, hs, 0, map[], [])
  {
    forall c | |hs| == 0 || c < hs[0].at
      ensures NoRuns(rects, c)
    {
      OutsideEvents(hs, Columns(rects), NonEmpty(rects), c);
      BareColumn(rects, c);
    }
    forall p
      ensures IsPiece(rects, p) && (|hs| > 0 ==> p.rect.right < hs[0].at) ==> p in []
    {
      assert IsPiece(rects, p) && (|hs| > 0 ==> p.rect.right < hs[0].at) ==> NoRuns(rects, p.rect.left);
      assert IsPiece(rects, p) ==> IsRun(rects, p.rect.left, StripOf(p));
    }
    assert |hs| > 0 ==> NoRuns(rects, hs[0].at - 1);
  }

  /** From the stop at `hs[h]` to the next stop all columns look alike. */
  lemma {:induction false} AlikeUntilNextStop(rects: seq<Rect>, hs: seq<Event>, h: nat, c: int)
    requires EventsOf(hs, Columns(rects), NonEmpty(rects))
    requires h < |hs| && hs[h].at <= c
    requires h + 1 < |hs| ==> c < hs[h + 1].at
    ensures SameRuns(rects, c, hs[h].at)
    ensures h + 1 == |hs| ==> NoRuns(rects, c)
  {
    RunningIsAt(hs, Columns(rects), NonEmpty(rects), h + 1, c);
    RunningIsAt(hs, Columns(rects), NonEmpty(rects), h + 1, hs[h].at);
    SameColumn(rects, c, hs[h].at);
    if h + 1 == |hs| {
      OutsideEvents(hs, Columns(rects), NonEmpty(rects), c);
      BareColumn(rects, c);
    }
  }

  /** The pieces that end at column `x` are the started rectangles that are no run there. */
  lemma {:induction false} EndsAtColumn(rects: seq<Rect>, x: int, started: map<Strip, Started>, p: RectSet)
    requires OpenAt(rects, x, started)
    ensures IsPiece(rects, p) && p.rect.right == x <==>
            && StripOf(p) in started
            && !IsRun(rects, x, StripOf(p))
            && p == Finished(StripOf(p), started[StripOf(p)].left, x)
  {
    var s := StripOf(p);
    if IsPiece(rects, p) && p.rect.right == x {
      assert IsRun(rects, x - 1, s);
      var l := started[s].left;
      assert l < p.rect.left ==> IsRun(rects, p.rect.left - 1, s);
      assert p.rect.left < l ==> IsRun(rects, l - 1, s);
    }
  }

  lemma {:induction false} SweepStep(rects: seq<Rect>, hs: seq<Event>, h: nat, stops: seq<Stop>,
                                     started: map<Strip, Started>, out: seq<RectSet>, marked: map<Strip, Started>,
                                     open: map<Strip, Started>, out': seq<RectSet>)
    requires EventsOf(hs, Columns(rects), NonEmpty(rects))
    requires h < |hs| && (h + 1 < |hs| ==> hs[h].at < hs[h + 1].at)
    requires Swept(rects, hs, h, started, out)
    requires forall s :: s in Strips(stops) <==> IsRun(rects, hs[h].at, s)
    requires marked.Keys == started.Keys + Strips(stops)
    requires forall s :: s in marked ==>
               marked[s] == Started(if s in started then started[s].left else hs[h].at, s in Strips(stops))
    requires open == map s | s in marked && marked[s].seen :: marked[s]
    requires Distinct(out')
    requires forall p :: p in out' <==>
               p in out || (StripOf(p) in marked && !marked[StripOf(p)].seen
                            && p == Finished(StripOf(p), marked[StripOf(p)].left, hs[h].at))
    ensures Swept(rects, hs, h + 1, open, out')
  {
    var x := hs[h].at;
    forall p
      ensures p in out' <==> IsPiece(rects, p) && p.rect.right <= x
    {
      EndsAtColumn(rects, x, started, p);
    }
    forall p | IsPiece(rects, p) && p.rect.right > x && (h + 1 < |hs| ==> p.rect.right < hs[h + 1].at)
      ensures false
    {
      assert IsRun(rects, p.rect.right - 1, StripOf(p));
      AlikeUntilNextStop(rects, hs, h, p.rect.right - 1);
      AlikeUntilNextStop(rects, hs, h, p.rect.right);
    }
    if h + 1 < |hs| {
      assert forall s :: s in open <==> IsRun(rects, x, s);
      StaysOpen(rects, hs, h, started, open);
    } else {
      AlikeUntilNextStop(rects, hs, h, x);
    }
  }

  lemma {:induction false} StaysOpen(rects: seq<Rect>, hs: seq<Event>, h: nat, started: map<Strip, Started>, open: map<Strip, Started>)
    requires EventsOf(hs, Columns(rects), NonEmpty(rects))
    requires h + 1 < |hs| && hs[h].at < hs[h + 1].at
    requires OpenAt(rects, hs[h].at, started)
    requires forall s :: s in open <==> IsRun(rects, hs[h].at, s)
    requires forall s :: s in open ==> open[s].left == if s in started then started[s].left else hs[h].at
    ensures OpenAt(rects, hs[h + 1].at, open)
  {
    SameRunsUntilNextStop(rects, hs, h);
    var x, x' := hs[h].at, hs[h + 1].at;
    forall s | s in open
      ensures OpenSince(rects, open[s].left, x', s)
    {
      assert s in started ==> OpenSince(rects, started[s].left, x, s);
      ExtendRun(rects, open[s].left, x, x', s);
    }
  }

  lemma {:induction false} SameRunsUntilNextStop(rects: seq<Rect>, hs: seq<Event>, h: nat)
    requires EventsOf(hs, Columns(rects), NonEmpty(rects))
    requires h + 1 < |hs| && hs[h].at < hs[h + 1].at
    ensures forall c :: hs[h].at <= c < hs[h + 1].at ==> SameRuns(rects, c, hs[h].at)
    ensures forall s :: IsRun(rects, hs[h + 1].at - 1, s) <==> IsRun(rects, hs[h].at, s)
  {
    forall c | hs[h].at <= c < hs[h + 1].at
      ensures SameRuns(rects, c, hs[h].at)
    {
      AlikeUntilNextStop(rects, hs, h, c);
    }
    assert SameRuns(rects, hs[h + 1].at - 1, hs[h].at);
  }

  /** `s` has been a run from column `left` up to `x`, and not just before. */
  ghost predicate OpenSince(rects: seq<Rect>, left: int, x: int, s: Strip) {
    && left < x
    && (forall c :: left <= c < x ==> IsRun(rects, c, s))
    && !IsRun(rects, left - 1, s)
  }

  lemma {:induction false} ExtendRun(rects: seq<Rect>, left: int, x: int, x': int, s: Strip)
    requires x < x' && forall c :: x <= c < x' ==> SameRuns(rects, c, x)
    requires IsRun(rects, x, s)
    requires OpenSince(rects, left, x, s) || (left == x && !IsRun(rects, x - 1, s))
    ensures OpenSince(rects, left, x', s)
  {
    forall c | left <= c < x'
      ensures IsRun(rects, c, s)
    {
      assert c >= x ==> SameRuns(rects, c, x);
    }
  }

  /** Both vertical edges of every rectangle that is not empty, in the order of the sweep. */
  method HorizontalEvents(rects: seq<Rect>) returns (hs: seq<Event>)
    ensures EventsOf(hs, Columns(rects), NonEmpty(rects))
  {
    hs := [];
    for i := 0 to |rects|
      invariant EventsOf(hs, Columns(rects), NonEmpty(rects[..i]))
    {
      var rect := rects[i];
      if rect.left >= rect.right || rect.top >= rect.bottom {
        assert NonEmpty(rects[..i + 1]) == NonEmpty(rects[..i]);
        continue;
      }
      InsertInterval(hs, Columns(rects), NonEmpty(rects[..i]), i);
      assert NonEmpty(rects[..i + 1]) == NonEmpty(rects[..i]) + {i};
      hs := Insert(hs, Event(Start, rect.left, i));
      hs := Insert(hs, Event(End, rect.right, i));
    }
    assert rects[..|rects|] == rects;
  }

  /** Puts the top and bottom edges of a starting rectangle on the sweep line, or takes them off. */
  method UpdateLine(rects: seq<Rect>, evt: Event, vs: seq<Event>, ghost active: set<nat>) returns (vs': seq<Event>)
    requires EventsOf(vs, Rows(rects), active)
    requires evt.id in NonEmpty(rects)
    requires evt.id in active <==> evt.kind == End
    ensures EventsOf(vs', Rows(rects), if evt.kind == Start then active + {evt.id} else active - {evt.id})
  {
    var rect := rects[evt.id];
    vs' := vs;
    if evt.kind == Start {
      InsertInterval(vs, Rows(rects), active, evt.id);
      vs' := Insert(vs', Event(Start, rect.top, evt.id));
      vs' := Insert(vs', Event(End, rect.bottom, evt.id));
    } else {
      EraseInterval(vs, Rows(rects), active, evt.id);
      var start := Find(vs', Event(Start, rect.top, evt.id));
      assert start != |vs'|;
      vs' := Erase(vs', start);
      var end := Find(vs', Event(End, rect.bottom, evt.id));
      assert end != |vs'|;
      vs' := Erase(vs', end);
    }
  }

  /** An id starts when it is not running and ends when it is. */
  lemma {:induction false} NotYetSeen(hs: seq<Event>, ivs: seq<Interval>, ids: set<nat>, h: nat)
    requires EventsOf(hs, ivs, ids)
    requires h < |hs|
    ensures hs[h].id in ids
    ensures hs[h].id in Running(hs[..h]) <==> hs[h].kind == End
  {
    var e := hs[h];
    assert e in hs && IsEventOf(e, ivs, ids);
    RunningIsBetween(hs, ivs, ids, h, e.id);
    var start, end := Event(Start, ivs[e.id].lo, e.id), Event(End, ivs[e.id].hi, e.id);
    assert forall j :: 0 <= j < h ==> Before(hs[j], e);
    if e.kind == End {
      assert start in hs;
      var j :| 0 <= j < |hs| && hs[j] == start;
      assert forall k :: h < k < |hs| ==> Before(e, hs[k]);
      assert hs[..h][j] == start;
    }
  }

  /** One stop of the sweep: starts, continues and ends rectangles at the column `x`. */
  method ProcessLine(rects: seq<Rect>, ghost hs: seq<Event>, ghost h: nat, x: int, vs: seq<Event>,
                     started: map<Strip, Started>, out: seq<RectSet>)
      returns (open: map<Strip, Started>, out': seq<RectSet>)
    requires EventsOf(hs, Columns(rects), NonEmpty(rects))
    requires h < |hs| && (h + 1 < |hs| ==> hs[h].at < hs[h + 1].at)
    requires x == hs[h].at
    requires EventsOf(vs, Rows(rects), Running(hs[..h + 1]))
    requires Swept(rects, hs, h, started, out)
    ensures Swept(rects, hs, h + 1, open, out')
  {
    RunningIsAt(hs, Columns(rects), NonEmpty(rects), h + 1, x);
    var stops := WalkDown(vs, Rows(rects), At(Columns(rects), NonEmpty(rects), x));
    RunsOfCrossSection(rects, x, stops);
    var marked := MarkSeen(stops, x, started);
    open, out' := EndUnseen(marked, x, out);
    SweepStep(rects, hs, h, stops, started, out, marked, open, out');
  }

  /**
   Splits the input rectangles into labelled disjoint pieces. More inputs than the guard
   allows give no output at all.
   */
  method SeparateRects(rects: seq<Rect>) returns (out: seq<RectSet>)
    ensures |rects| <= 32 ==> Separated(rects, out)
    ensures |rects| > 32 ==> out == []
  {
    out := [];
    if |rects| > MAX_ELEMENTS {
      return;
    }
    var hs := HorizontalEvents(rects);
    var vs := [];
    var started: map<Strip, Started> := map[];
    SweepStart(rects, hs);
    for h := 0 to |hs|
      invariant EventsOf(vs, Rows(rects), Running(hs[..h]))
      invariant Swept(rects, hs, h, started, out)
    {
      var evt := hs[h];
      RunningStep(hs, h);
      NotYetSeen(hs, Columns(rects), NonEmpty(rects), h);
      vs := UpdateLine(rects, evt, vs, Running(hs[..h]));

      // Other rectangles may share this edge; the line is processed once they are all marked.
      if h + 1 < |hs| && hs[h + 1].at == evt.at {
        continue;
      }
      assert h + 1 < |hs| ==> Before(hs[h], hs[h + 1]);
      started, out := ProcessLine(rects, hs, h, evt.at, vs, started, out);
    }
  }
}
