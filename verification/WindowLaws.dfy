/** What the streamed windows see, and the rows it gives them, against full histories. */
module WindowLaws {
  import opened Market
  import opened Execution
  import opened Lookups
  import opened Backtest
  import opened Windows

  /** What the second loop prices for a start: the carried view, if any, then the buffer. */
  function WindowViews(carried: Option<View>, buffer: seq<View>): seq<View> {
    match carried
    case None => buffer
    case Some(v) => [v] + buffer
  }

  /** The input the stream assembles for a start that `times` windows share. */
  function Seen(views: seq<View>, s: int, durationNs: int, times: nat): seq<View> {
    WindowViews(Carried(views, s, durationNs), Gathered(views, s, durationNs, times))
  }

  // ---- where a window lies in ascending views ----

  /** `p` views come before the window and `q` before its end. */
  predicate Bracket(views: seq<View>, s: int, durationNs: int, p: nat, q: nat) {
    && p <= q <= |views|
    && (forall i :: 0 <= i < p ==> views[i].recvNs < s)
    && (forall i :: p <= i < q ==> Covers(s, durationNs, views[i].recvNs))
    && (forall i :: q <= i < |views| ==> views[i].recvNs > s + durationNs)
  }

  lemma BracketExists(views: seq<View>, s: int, durationNs: int) returns (p: nat, q: nat)
    requires InOrder(views) && durationNs >= 0
    ensures Bracket(views, s, durationNs, p, q)
  {
    q := CutAt(views, s + durationNs);
    var before := CutAt(views, s - 1);
    p := Min(before, q);
  }

  lemma BracketInit(views: seq<View>, s: int, durationNs: int, p: nat, q: nat)
    requires views != [] && Bracket(views, s, durationNs, p, q)
    ensures Bracket(views[..|views| - 1], s, durationNs, Min(p, |views| - 1), Min(q, |views| - 1))
    ensures Covers(s, durationNs, views[|views| - 1].recvNs) <==> p < q == |views|
  {
  }

  lemma {:induction false} WithinIsSlice(views: seq<View>, s: int, durationNs: int, p: nat, q: nat)
    requires Bracket(views, s, durationNs, p, q)
    ensures Within(views, s, durationNs) == views[p..q]
  {
    if views != [] {
      var n := |views| - 1;
      var init := views[..n];
      BracketInit(views, s, durationNs, p, q);
      if q <= n {
        WithinIsSlice(init, s, durationNs, p, q);
        InitSlice(views, p, q);
      } else {
        WithinIsSlice(init, s, durationNs, Min(p, n), n);
        if p < q {
          SliceSnoc(views, p, q);
          InitSlice(views, p, n);
        }
      }
    }
  }

  lemma {:induction false} CarriedIsBefore(views: seq<View>, s: int, durationNs: int, p: nat, q: nat)
    requires Bracket(views, s, durationNs, p, q)
    ensures Carried(views, s, durationNs) == if p < q then LastOf(views[..p]) else None
  {
    if views != [] {
      var n := |views| - 1;
      var init := views[..n];
      BracketInit(views, s, durationNs, p, q);
      CarriedIsBefore(init, s, durationNs, Min(p, n), Min(q, n));
      WithinIsSlice(init, s, durationNs, Min(p, n), Min(q, n));
      if p <= n {
        InitSlice(views, 0, p);
      }
    }
  }

  // ---- repeated views change no lookup ----

  lemma {:induction false} UpToAppend(a: seq<View>, b: seq<View>, t: int)
    ensures UpTo(a + b, t) == UpTo(a, t) + UpTo(b, t)
  {
    if b == [] {
      assert a + b == a;
    } else {
      var n := |b| - 1;
      assert (a + b)[..|a + b| - 1] == a + b[..n];
      UpToAppend(a, b[..n], t);
    }
  }

  lemma {:induction false} UpToCopies(v: View, times: nat, t: int)
    ensures UpTo(Copies(v, times), t) == if v.recvNs <= t then Copies(v, times) else []
  {
    if times > 0 {
      assert Copies(v, times)[..times - 1] == Copies(v, times - 1);
      UpToCopies(v, times - 1, t);
      assert Copies(v, times) == Copies(v, times - 1) + [v];
    }
  }

  lemma LastOfAppend(a: seq<View>, b: seq<View>)
    ensures LastOf(a + b) == if b == [] then LastOf(a) else LastOf(b)
  {
    if b == [] { assert a + b == a; }
  }

  lemma {:induction false} BufferLooksLikeWindow(views: seq<View>, s: int, durationNs: int, times: nat, t: int)
    requires times >= 1
    ensures LastOf(UpTo(Gathered(views, s, durationNs, times), t)) == LastOf(UpTo(Within(views, s, durationNs), t))
  {
    if views != [] {
      var n := |views| - 1;
      BufferLooksLikeWindow(views[..n], s, durationNs, times, t);
      if Covers(s, durationNs, views[n].recvNs) {
        CopiesLookLikeOne(Gathered(views[..n], s, durationNs, times), Within(views[..n], s, durationNs), views[n], times, t);
      } else {
        assert Gathered(views[..n], s, durationNs, times) + [] == Gathered(views[..n], s, durationNs, times);
        assert Within(views[..n], s, durationNs) + [] == Within(views[..n], s, durationNs);
      }
    }
  }

  lemma CopiesLookLikeOne(a: seq<View>, b: seq<View>, v: View, times: nat, t: int)
    requires times >= 1 && LastOf(UpTo(a, t)) == LastOf(UpTo(b, t))
    ensures LastOf(UpTo(a + Copies(v, times), t)) == LastOf(UpTo(b + [v], t))
  {
    UpToAppend(a, Copies(v, times), t);
    UpToAppend(b, [v], t);
    UpToCopies(v, times, t);
    assert Copies(v, 1) == [v];
    UpToCopies(v, 1, t);
    LastOfAppend(UpTo(a, t), UpTo(Copies(v, times), t));
    LastOfAppend(UpTo(b, t), UpTo([v], t));
  }

  lemma {:induction false} BufferInOrder(views: seq<View>, s: int, durationNs: int, times: nat)
    requires InOrder(views)
    ensures InOrder(Gathered(views, s, durationNs, times))
    ensures forall v :: v in Gathered(views, s, durationNs, times) ==> v in views && v.recvNs >= s
  {
    if views != [] {
      var n := |views| - 1;
      BufferInOrder(views[..n], s, durationNs, times);
      var before := Gathered(views[..n], s, durationNs, times);
      forall i | 0 <= i < |before|
        ensures before[i].recvNs <= views[n].recvNs
      {
        assert before[i] in views[..n];
      }
      assert forall v :: v in views[..n] ==> v in views;
    }
  }

  // ---- lookups ----

  function OrElse(first: Option<View>, second: Option<View>): Option<View> {
    if first.Some? then first else second
  }

  /** A lookup inside the window finds one of its views, or the last one before it. */
  lemma HistoryLookup(views: seq<View>, s: int, durationNs: int, p: nat, q: nat, t: int)
    requires Bracket(views, s, durationNs, p, q) && s <= t <= s + durationNs
    ensures LastOf(UpTo(views, t)) == OrElse(LastOf(UpTo(views[p..q], t)), LastOf(views[..p]))
  {
    var before, inside, after := views[..p], views[p..q], views[q..];
    assert views == (before + inside) + after;
    UpToAppend(before + inside, after, t);
    UpToAppend(before, inside, t);
    UpToIsPrefix(before, t, p);
    assert before[..p] == before;
    UpToIsPrefix(after, t, 0);
    assert UpTo(views, t) == before + UpTo(inside, t);
    LastOfAppend(before, UpTo(inside, t));
  }

  lemma WindowLookup(carried: Option<View>, buffer: seq<View>, t: int)
    requires carried.Some? ==> carried.value.recvNs <= t
    ensures LastOf(UpTo(WindowViews(carried, buffer), t)) == OrElse(LastOf(UpTo(buffer, t)), carried)
  {
    if carried.Some? {
      var v := carried.value;
      UpToAppend([v], buffer, t);
      assert Copies(v, 1) == [v];
      UpToCopies(v, 1, t);
      LastOfAppend([v], UpTo(buffer, t));
    }
  }

  lemma LookupsAgree(views: seq<View>, s: int, durationNs: int, times: nat, t: int)
    requires InOrder(views) && durationNs >= 0 && times >= 1
    requires Within(views, s, durationNs) != [] && s <= t <= s + durationNs
    ensures LastOf(UpTo(Seen(views, s, durationNs, times), t))
            == LastOf(UpTo(views, t))
  {
    var p, q := BracketExists(views, s, durationNs);
    WithinIsSlice(views, s, durationNs, p, q);
    CarriedIsBefore(views, s, durationNs, p, q);
    HistoryLookup(views, s, durationNs, p, q, t);
    BufferLooksLikeWindow(views, s, durationNs, times, t);
    CarriedEarly(views, s, durationNs, p, q);
    WindowLookup(Carried(views, s, durationNs), Gathered(views, s, durationNs, times), t);
  }

  lemma CarriedEarly(views: seq<View>, s: int, durationNs: int, p: nat, q: nat)
    requires Bracket(views, s, durationNs, p, q)
    ensures Carried(views, s, durationNs).Some? ==> Carried(views, s, durationNs).value.recvNs < s
  {
    CarriedIsBefore(views, s, durationNs, p, q);
  }

  lemma EarlierFirst(v: View, buffer: seq<View>)
    requires InOrder(buffer) && forall b :: b in buffer ==> v.recvNs <= b.recvNs
    ensures InOrder([v] + buffer)
  {
    assert forall i :: 0 <= i < |buffer| ==> buffer[i] in buffer;
  }

  lemma WindowViewsInOrder(views: seq<View>, s: int, durationNs: int, times: nat)
    requires InOrder(views) && durationNs >= 0 && times >= 1 && Within(views, s, durationNs) != []
    ensures InOrder(Seen(views, s, durationNs, times))
    ensures Seen(views, s, durationNs, times) != []
  {
    var p, q := BracketExists(views, s, durationNs);
    WithinIsSlice(views, s, durationNs, p, q);
    CarriedIsBefore(views, s, durationNs, p, q);
    BufferInOrder(views, s, durationNs, times);
    BufferSize(views, s, durationNs, times);
    var buffer := Gathered(views, s, durationNs, times);
    assert |buffer| >= 1 by { Scale(1, |Within(views, s, durationNs)|, times); }
    if p > 0 {
      EarlierFirst(views[p - 1], buffer);
    }
  }

  lemma LastKept(views: seq<View>, t: int, last: Option<View>)
    requires forall v :: v in views ==> v.recvNs <= t
    requires LastOf(UpTo(views, t)) == last
    ensures LastOf(views) == last
  {
    forall i | 0 <= i < |views|
      ensures views[i].recvNs <= t
    {
      assert views[i] in views;
    }
    UpToIsPrefix(views, t, |views|);
    assert views[..|views|] == views;
  }

  /** Both ways of looking at a window end on the same view. */
  lemma LastViews(views: seq<View>, s: int, durationNs: int, times: nat)
    requires InOrder(views) && durationNs >= 0 && times >= 1 && Within(views, s, durationNs) != []
    ensures LastOf(Seen(views, s, durationNs, times)) == LastOf(UpTo(views, s + durationNs))
  {
    var a, end := Seen(views, s, durationNs, times), s + durationNs;
    assert LastOf(UpTo(a, end)) == LastOf(UpTo(views, end)) by {
      LookupsAgree(views, s, durationNs, times, end);
    }
    assert forall v :: v in a ==> v.recvNs <= end by {
      AllEarly(views, s, durationNs, times);
    }
    LastKept(a, end, LastOf(UpTo(views, end)));
  }

  lemma SameLookup(a: seq<View>, views: seq<View>, end: int, t: int)
    requires InOrder(a) && InOrder(views) && t <= end && LastOf(UpTo(a, t)) == LastOf(UpTo(views, t))
    ensures InOrder(UpTo(views, end)) && AsOf(a, t) == AsOf(UpTo(views, end), t)
  {
    var cut := CutAt(views, end);
    AsOfIsLastUpTo(a, t);
    AsOfIsLastUpTo(UpTo(views, end), t);
    UpToAgain(views, end, t);
  }

  lemma AlikeInside(a: seq<View>, views: seq<View>, s: int, end: int)
    requires InOrder(a) && InOrder(views) && a != [] && s <= end
    requires LastOf(a) == LastOf(UpTo(views, end))
    requires forall t :: s <= t <= end ==> LastOf(UpTo(a, t)) == LastOf(UpTo(views, t))
    ensures SameInside(a, UpTo(views, end), s, end)
  {
    forall t | s <= t <= end
      ensures AsOf(a, t) == AsOf(UpTo(views, end), t)
    {
      SameLookup(a, views, end, t);
    }
    SameLookup(a, views, end, s);
  }

  /** A window's carried view and buffer answer every lookup inside it like the history
      up to its end, and end on the same view. */
  lemma InsideLooksAlike(views: seq<View>, s: int, durationNs: int, times: nat)
    requires InOrder(views) && durationNs >= 0 && times >= 1 && Within(views, s, durationNs) != []
    ensures SameInside(Seen(views, s, durationNs, times), UpTo(views, s + durationNs), s, s + durationNs)
  {
    var a := Seen(views, s, durationNs, times);
    WindowViewsInOrder(views, s, durationNs, times);
    LastViews(views, s, durationNs, times);
    forall t | s <= t <= s + durationNs
      ensures LastOf(UpTo(a, t)) == LastOf(UpTo(views, t))
    {
      LookupsAgree(views, s, durationNs, times, t);
    }
    AlikeInside(a, views, s, s + durationNs);
  }

  lemma AllEarly(views: seq<View>, s: int, durationNs: int, times: nat)
    requires InOrder(views) && durationNs >= 0 && Within(views, s, durationNs) != []
    ensures forall v :: v in Seen(views, s, durationNs, times) ==> v.recvNs <= s + durationNs
  {
    var p, q := BracketExists(views, s, durationNs);
    WithinIsSlice(views, s, durationNs, p, q);
    CarriedEarly(views, s, durationNs, p, q);
    BufferEarly(views, s, durationNs, times);
  }

  lemma {:induction false} BufferEarly(views: seq<View>, s: int, durationNs: int, times: nat)
    ensures forall v :: v in Gathered(views, s, durationNs, times) ==> v.recvNs <= s + durationNs
  {
    if views != [] {
      BufferEarly(views[..|views| - 1], s, durationNs, times);
    }
  }

  lemma EmptyWindow(views: seq<View>, s: int, durationNs: int, times: nat)
    requires InOrder(views) && durationNs >= 0 && Within(views, s, durationNs) == []
    ensures Seen(views, s, durationNs, times) == []
  {
    var p, q := BracketExists(views, s, durationNs);
    WithinIsSlice(views, s, durationNs, p, q);
    CarriedIsBefore(views, s, durationNs, p, q);
    BufferSize(views, s, durationNs, times);
  }

  // ---- all the windows, for any way of pricing one ----

  type Pricer = (int, seq<View>) -> Result<Row>

  /** The rows yielded so far, and the error that ended the generator, if one did. */
  datatype Outcome = Outcome(rows: seq<Row>, raised: Option<Error>)

  /** Prices one more window: none without views, none when the pricing raises a `ValueError`. */
  function Extended(price: Pricer, o: Outcome, s: int, views: seq<View>): Outcome {
    if o.raised.Some? || views == [] then o else Recorded(o, price(s, views))
  }

  function Recorded(o: Outcome, row: Result<Row>): Outcome {
    match row
    case Ok(r) => o.(rows := o.rows + [r])
    case Err(e) => if e == ValueError then o else o.(raised := Some(e))
  }

  /** The outcome over all the starts, given what each start sees. */
  function Yielded(price: Pricer, input: int -> seq<View>, starts: seq<int>): Outcome {
    if starts == [] then Outcome([], None)
    else
      var n := |starts| - 1;
      Extended(price, Yielded(price, input, starts[..n]), starts[n], input(starts[n]))
  }

  /** The starts whose pricing gives a row, in order. */
  function StartsPriced(price: Pricer, input: int -> seq<View>, starts: seq<int>): seq<int> {
    if starts == [] then []
    else
      var n := |starts| - 1;
      StartsPriced(price, input, starts[..n])
      + if input(starts[n]) != [] && price(starts[n], input(starts[n])).Ok? then [starts[n]] else []
  }

  predicate Escapes<T>(r: Result<T>) {
    r.Err? && r.error != ValueError
  }

  /** What pricing at `s` raises is not caught. */
  predicate RaisesAt(price: Pricer, input: int -> seq<View>, s: int) {
    input(s) != [] && Escapes(price(s, input(s)))
  }

  /** Some rows are those of the starts that are priced: one for each, in order, and its pricing. */
  predicate RowsMatch(rows: seq<Row>, price: Pricer, input: int -> seq<View>, starts: seq<int>) {
    var priced := StartsPriced(price, input, starts);
    && |rows| == |priced|
    && forall i :: 0 <= i < |rows| ==>
         priced[i] in starts && input(priced[i]) != [] && price(priced[i], input(priced[i])) == Ok(rows[i])
  }

  /** Rows are yielded in the order of the starts, one for each start that is priced. */
  lemma {:induction false} RowsInOrder(price: Pricer, input: int -> seq<View>, starts: seq<int>)
    requires Yielded(price, input, starts).raised.None?
    ensures RowsMatch(Yielded(price, input, starts).rows, price, input, starts)
  {
    if starts != [] {
      var n := |starts| - 1;
      RowsInOrder(price, input, starts[..n]);
      InitIn(starts);
    }
  }

  /** What escapes ends the generator there: the rows before it are kept, and nothing follows. */
  lemma {:induction false} RowsUntilRaised(price: Pricer, input: int -> seq<View>, starts: seq<int>) returns (at: nat)
    requires Yielded(price, input, starts).raised.Some?
    ensures at < |starts| && Yielded(price, input, starts[..at]).raised.None?
    ensures RaisesAt(price, input, starts[at])
    ensures Yielded(price, input, starts)
            == Outcome(Yielded(price, input, starts[..at]).rows, Some(price(starts[at], input(starts[at])).error))
  {
    var n := |starts| - 1;
    if Yielded(price, input, starts[..n]).raised.Some? {
      at := RowsUntilRaised(price, input, starts[..n]);
      assert starts[..n][..at] == starts[..at];
    } else {
      at := n;
    }
  }

  /** What the streaming maps hold for each start. */
  function FromStream(views: seq<View>, durationNs: int, starts: seq<int>): int -> seq<View> {
    s => Seen(views, s, durationNs, Count(starts, s))
  }

  /** All views up to the window's end. */
  function Past(views: seq<View>, s: int, durationNs: int): seq<View> {
    UpTo(views, s + durationNs)
  }

  function FromHistory(views: seq<View>, durationNs: int): int -> seq<View> {
    s => Past(views, s, durationNs)
  }

  predicate Sees(views: seq<View>, s: int, durationNs: int) {
    Within(views, s, durationNs) != []
  }

  /** The starts whose windows see a view, in order. */
  function Seeing(views: seq<View>, durationNs: int, starts: seq<int>): seq<int> {
    if starts == [] then []
    else
      var n := |starts| - 1;
      Seeing(views, durationNs, starts[..n]) + if Sees(views, starts[n], durationNs) then [starts[n]] else []
  }

  /** A window that sees no view although there is one before it. */
  predicate Blind(views: seq<View>, s: int, durationNs: int) {
    !Sees(views, s, durationNs) && UpTo(views, s + durationNs) != []
  }

  function BlindCount(views: seq<View>, durationNs: int, starts: seq<int>): nat {
    if starts == [] then 0
    else
      var n := |starts| - 1;
      BlindCount(views, durationNs, starts[..n]) + if Blind(views, starts[n], durationNs) then 1 else 0
  }

  lemma {:induction false} CountsBlind(views: seq<View>, durationNs: int, starts: seq<int>)
    ensures BlindCount(views, durationNs, starts) == 0 <==> forall i :: 0 <= i < |starts| ==> !Blind(views, starts[i], durationNs)
  {
    if starts != [] {
      CountsBlind(views, durationNs, starts[..|starts| - 1]);
    }
  }

  /** The pricing looks only inside the window and at the last view. */
  ghost predicate LooksInside(price: Pricer, durationNs: int) {
    forall s, a, b :: SameInside(a, b, s, s + durationNs) ==> price(s, a) == price(s, b)
  }

  predicate Skipped<T>(r: Result<T>) {
    r.Err? && r.error == ValueError
  }

  /** The pricing never skips a window that has a view at its start. */
  ghost predicate KnowsStart(price: Pricer) {
    forall s, views :: InOrder(views) && AsOf(views, s).Some? ==> !Skipped(price(s, views))
  }

  lemma YieldedSnoc(price: Pricer, input: int -> seq<View>, starts: seq<int>, s: int)
    ensures Yielded(price, input, starts + [s]) == Extended(price, Yielded(price, input, starts), s, input(s))
  {
    assert (starts + [s])[..|starts|] == starts;
  }

  /** A window that sees a view is priced alike on what the stream holds and on all views up
      to its end; the stream holds nothing for one that does not. */
  lemma StartAlike(price: Pricer, views: seq<View>, s: int, durationNs: int, times: nat)
    requires InOrder(views) && durationNs >= 0 && times >= 1 && LooksInside(price, durationNs)
    ensures !Sees(views, s, durationNs) ==> Seen(views, s, durationNs, times) == []
    ensures Sees(views, s, durationNs) ==>
              && Seen(views, s, durationNs, times) != [] && UpTo(views, s + durationNs) != []
              && price(s, Seen(views, s, durationNs, times)) == price(s, UpTo(views, s + durationNs))
  {
    if Sees(views, s, durationNs) {
      InsideLooksAlike(views, s, durationNs, times);
    } else {
      EmptyWindow(views, s, durationNs, times);
    }
  }

  lemma SeeingSnoc(views: seq<View>, durationNs: int, starts: seq<int>, s: int)
    ensures Seeing(views, durationNs, starts + [s])
            == if Sees(views, s, durationNs) then Seeing(views, durationNs, starts) + [s] else Seeing(views, durationNs, starts)
  {
    assert (starts + [s])[..|starts|] == starts;
  }

  /** One start more, on what the stream holds for it and on the history of those that see a view. */
  lemma StreamedSnoc(price: Pricer, views: seq<View>, durationNs: int, stream: int -> seq<View>, starts: seq<int>, s: int, times: nat)
    requires InOrder(views) && durationNs >= 0 && times >= 1 && LooksInside(price, durationNs)
    requires stream(s) == Seen(views, s, durationNs, times)
    requires Yielded(price, stream, starts) == Yielded(price, FromHistory(views, durationNs), Seeing(views, durationNs, starts))
    ensures Yielded(price, stream, starts + [s])
            == Yielded(price, FromHistory(views, durationNs), Seeing(views, durationNs, starts + [s]))
  {
    StartAlike(price, views, s, durationNs, times);
    YieldedSnoc(price, stream, starts, s);
    SeeingSnoc(views, durationNs, starts, s);
    YieldedSnoc(price, FromHistory(views, durationNs), Seeing(views, durationNs, starts), s);
  }

  lemma {:induction false} StreamedPrefix(price: Pricer, views: seq<View>, durationNs: int, starts: seq<int>, k: nat)
    requires InOrder(views) && durationNs >= 0 && LooksInside(price, durationNs) && k <= |starts|
    ensures Yielded(price, FromStream(views, durationNs, starts), starts[..k])
            == Yielded(price, FromHistory(views, durationNs), Seeing(views, durationNs, starts[..k]))
  {
    if k > 0 {
      var s := starts[k - 1];
      StreamedPrefix(price, views, durationNs, starts, k - 1);
      SliceSnoc(starts, 0, k);
      CountAbsent(starts, s);
      StreamedSnoc(price, views, durationNs, FromStream(views, durationNs, starts), starts[..k - 1], s, Count(starts, s));
    }
  }

  /** Over ascending views the stream yields what the full histories would for the windows
      that see a view, whether or not starts coincide, and drops the other windows. */
  lemma StreamedIsHistorical(price: Pricer, views: seq<View>, durationNs: int, starts: seq<int>)
    requires InOrder(views) && durationNs >= 0 && LooksInside(price, durationNs)
    ensures Yielded(price, FromStream(views, durationNs, starts), starts)
            == Yielded(price, FromHistory(views, durationNs), Seeing(views, durationNs, starts))
  {
    assert starts[..|starts|] == starts;
    StreamedPrefix(price, views, durationNs, starts, |starts|);
  }

  lemma {:induction false} NoneCovered(views: seq<View>, s: int, durationNs: int, i: nat)
    requires i < |views| && Within(views, s, durationNs) == []
    ensures !Covers(s, durationNs, views[i].recvNs)
  {
    var n := |views| - 1;
    if i < n {
      NoneCovered(views[..n], s, durationNs, i);
    }
  }

  lemma StartKnown(views: seq<View>, s: int)
    requires InOrder(views) && views != [] && views[0].recvNs <= s
    ensures AsOf(views, s).Some?
  {
    var cut := CutAt(views, s);
  }

  /** An earlier view is still there at the start of a window that sees none. */
  lemma BlindHasStart(views: seq<View>, s: int, durationNs: int)
    requires InOrder(views) && durationNs >= 0 && Blind(views, s, durationNs)
    ensures InOrder(UpTo(views, s + durationNs)) && AsOf(UpTo(views, s + durationNs), s).Some?
  {
    var cut := CutAt(views, s + durationNs);
    NoneCovered(views, s, durationNs, 0);
    StartKnown(views[..cut], s);
  }

  /** The outcome with every window priced has so many rows more, and nothing else that is different. */
  ghost predicate RowsMore(all: Outcome, seeing: Outcome, n: nat) {
    && (n == 0 ==> all == seeing)
    && (all.raised.None? ==> seeing.raised.None? && |all.rows| == |seeing.rows| + n)
  }

  /** The same window adds as many rows to one outcome as to another. */
  lemma BothPriced(price: Pricer, all: Outcome, seeing: Outcome, n: nat, s: int, views: seq<View>)
    requires RowsMore(all, seeing, n)
    ensures RowsMore(Extended(price, all, s, views), Extended(price, seeing, s, views), n)
  {
  }

  lemma OnePriced(price: Pricer, all: Outcome, seeing: Outcome, n: nat, s: int, views: seq<View>)
    requires RowsMore(all, seeing, n) && views != [] && !Skipped(price(s, views))
    ensures RowsMore(Extended(price, all, s, views), seeing, n + 1)
  {
  }

  lemma HistorySnoc(price: Pricer, views: seq<View>, durationNs: int, starts: seq<int>, s: int)
    ensures Yielded(price, FromHistory(views, durationNs), starts + [s])
            == Extended(price, Yielded(price, FromHistory(views, durationNs), starts), s, UpTo(views, s + durationNs))
  {
    YieldedSnoc(price, FromHistory(views, durationNs), starts, s);
  }

  lemma BlindIsPriced(price: Pricer, views: seq<View>, s: int, durationNs: int)
    requires InOrder(views) && durationNs >= 0 && KnowsStart(price) && Blind(views, s, durationNs)
    ensures !Skipped(price(s, UpTo(views, s + durationNs)))
  {
    BlindHasStart(views, s, durationNs);
  }

  lemma DroppedSnoc(price: Pricer, views: seq<View>, durationNs: int, starts: seq<int>, s: int, n: nat)
    requires Blind(views, s, durationNs) ==> !Skipped(price(s, UpTo(views, s + durationNs)))
    requires RowsMore(Yielded(price, FromHistory(views, durationNs), starts),
                      Yielded(price, FromHistory(views, durationNs), Seeing(views, durationNs, starts)), n)
    ensures RowsMore(Yielded(price, FromHistory(views, durationNs), starts + [s]),
                     Yielded(price, FromHistory(views, durationNs), Seeing(views, durationNs, starts + [s])),
                     n + if Blind(views, s, durationNs) then 1 else 0)
  {
    var all := Yielded(price, FromHistory(views, durationNs), starts);
    var seeing := Yielded(price, FromHistory(views, durationNs), Seeing(views, durationNs, starts));
    SeeingSnoc(views, durationNs, starts, s);
    HistorySnoc(price, views, durationNs, starts, s);
    if Sees(views, s, durationNs) {
      HistorySnoc(price, views, durationNs, Seeing(views, durationNs, starts), s);
      BothPriced(price, all, seeing, n, s, UpTo(views, s + durationNs));
    } else if UpTo(views, s + durationNs) != [] {
      OnePriced(price, all, seeing, n, s, UpTo(views, s + durationNs));
    } else {
      assert Extended(price, all, s, []) == all;
    }
  }

  /** What the dropped windows would have added: when the full histories are priced without
      anything escaping, one row each; and when there are none, nothing at all. */
  lemma {:induction false} DroppedWindows(price: Pricer, views: seq<View>, durationNs: int, starts: seq<int>)
    requires InOrder(views) && durationNs >= 0 && KnowsStart(price)
    ensures RowsMore(Yielded(price, FromHistory(views, durationNs), starts),
                     Yielded(price, FromHistory(views, durationNs), Seeing(views, durationNs, starts)),
                     BlindCount(views, durationNs, starts))
  {
    if starts != [] {
      var n := |starts| - 1;
      DroppedWindows(price, views, durationNs, starts[..n]);
      if Blind(views, starts[n], durationNs) {
        BlindIsPriced(price, views, starts[n], durationNs);
      }
      DroppedSnoc(price, views, durationNs, starts[..n], starts[n], BlindCount(views, durationNs, starts[..n]));
      InitLast(starts);
    }
  }
}
