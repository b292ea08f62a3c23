/** Reading the page: waiting until the assistant's answer has stopped changing, and cutting out a marked section. */
module Extraction {
  import opened Wrappers
  import opened Texts

  // ---- Waiting for a stable answer ----

  /** What one look at the page finds: whether an answer is still being written, and the last assistant message, if any. */
  datatype Look = Look(streaming: bool, extracted: Option<Text>)

  datatype Response = Stable(text: Text) | StillStreaming | NotFound | Unstable(text: Text)

  predicate Readable(l: Look) {
    !l.streaming && l.extracted.Some? && Trim(l.extracted.value) != []
  }

  /** The looks at times `0 .. n`. */
  function Seen(page: nat -> Look, n: nat): (r: seq<Look>)
    ensures |r| == n && forall k :: 0 <= k < n ==> r[k] == page(k)
  {
    seq(n, k requires 0 <= k < n => page(k))
  }

  /** The texts read so far, in order. */
  function TextsRead(looks: seq<Look>): seq<Text>
    decreases |looks|
  {
    if looks == [] then []
    else
      var n := |looks| - 1;
      TextsRead(looks[..n]) + if Readable(looks[n]) then [looks[n].extracted.value] else []
  }

  /** The texts read since the answer was last seen being written. */
  function FreshTexts(looks: seq<Look>): seq<Text>
    decreases |looks|
  {
    if looks == [] then []
    else
      var n := |looks| - 1;
      if looks[n].streaming then []
      else FreshTexts(looks[..n]) + if Readable(looks[n]) then [looks[n].extracted.value] else []
  }

  /** The last `n` texts are the same text. */
  ghost predicate EndsConstant(texts: seq<Text>, n: nat) {
    n <= |texts| && forall i :: |texts| - n <= i < |texts| ==> texts[i] == texts[|texts| - 1]
  }

  /** A stable answer: since the answer was last being written, the last `stablePolls` texts read (at least one) are equal. */
  ghost predicate Settled(looks: seq<Look>, stablePolls: int) {
    EndsConstant(FreshTexts(looks), if stablePolls < 1 then 1 else stablePolls)
  }

  function Last(texts: seq<Text>): Text {
    if texts == [] then [] else texts[|texts| - 1]
  }

  /** How many of the last texts are equal to the last one: the counter of the loop. */
  function RunLength(texts: seq<Text>): (n: nat)
    ensures n <= |texts| && (texts != [] ==> n >= 1)
    decreases |texts|
  {
    if texts == [] then 0
    else
      var front := texts[..|texts| - 1];
      if front != [] && Last(front) == Last(texts) then RunLength(front) + 1 else 1
  }

  lemma {:induction false} RunLengthExact(texts: seq<Text>, n: nat)
    ensures EndsConstant(texts, n) <==> n <= RunLength(texts)
    decreases |texts|
  {
    if texts != [] && n > 1 {
      var front := texts[..|texts| - 1];
      RunLengthExact(front, n - 1);
      if EndsConstant(texts, n) {
        assert texts[|texts| - 2] == Last(texts);
        assert EndsConstant(front, n - 1);
      } else if n <= RunLength(texts) {
        assert EndsConstant(front, n - 1);
        forall i | |texts| - n <= i < |texts| ensures texts[i] == Last(texts) {
          if i < |texts| - 1 { assert texts[i] == front[i]; }
        }
      }
    }
  }

  /** After a streaming look the counter starts again but the text is remembered; the remembered text cannot count, because
      nothing has been read since. */
  lemma {:induction false} FreshEndsRead(looks: seq<Look>)
    ensures FreshTexts(looks) != [] ==> TextsRead(looks) != [] && Last(FreshTexts(looks)) == Last(TextsRead(looks))
    decreases |looks|
  {
    if looks != [] {
      FreshEndsRead(looks[..|looks| - 1]);
    }
  }

  // ---- Settled, in terms of the page ----

  predicate Nonblank(l: Look) {
    l.extracted.Some? && Trim(l.extracted.value) != []
  }

  /** From this look on, up to the `n`-th, no answer was being written and every message that was not blank was this text. */
  ghost predicate Steady(page: nat -> Look, from: nat, n: nat, text: Text) {
    from <= n && forall k :: from <= k < n ==> !page(k).streaming && (Nonblank(page(k)) ==> page(k).extracted == Some(text))
  }

  /** How many of these looks found a message that was not blank. */
  function Showings(page: nat -> Look, from: nat, n: nat): (r: nat)
    ensures from >= n ==> r == 0
    decreases n - from
  {
    if from >= n then 0 else Showings(page, from, n - 1) + if Nonblank(page(n - 1)) then 1 else 0
  }

  // What one look does to the texts read since the answer was last being written.
  lemma FreshNext(page: nat -> Look, n: nat)
    ensures var before, after := FreshTexts(Seen(page, n)), FreshTexts(Seen(page, n + 1));
            && (page(n).streaming ==> after == [])
            && (!page(n).streaming && !Nonblank(page(n)) ==> after == before)
            && (!page(n).streaming && Nonblank(page(n)) ==>
                  && after == before + [page(n).extracted.value] && after[..|after| - 1] == before
                  && Last(after) == page(n).extracted.value)
  {
    SeenNext(page, n);
  }

  lemma {:induction false} SteadyBounded(page: nat -> Look, from: nat, n: nat, text: Text)
    requires Steady(page, from, n, text)
    ensures Showings(page, from, n) <= RunLength(FreshTexts(Seen(page, n)))
    ensures Showings(page, from, n) > 0 ==> Last(FreshTexts(Seen(page, n))) == text
  {
    if from < n {
      SteadyBounded(page, from, n - 1, text);
      FreshNext(page, n - 1);
    }
  }

  // From this look on the texts are as steady as the counter says.
  ghost predicate SteadyFrom(page: nat -> Look, from: nat, n: nat) {
    && Steady(page, from, n, Last(FreshTexts(Seen(page, n))))
    && Showings(page, from, n) == RunLength(FreshTexts(Seen(page, n)))
  }

  lemma SteadyOn(page: nat -> Look, from: nat, n: nat)
    requires SteadyFrom(page, from, n) && !page(n).streaming && !Nonblank(page(n))
    ensures SteadyFrom(page, from, n + 1)
  {
    FreshNext(page, n);
  }

  lemma SteadyGrows(page: nat -> Look, from: nat, n: nat)
    requires SteadyFrom(page, from, n) && !page(n).streaming && Nonblank(page(n))
    requires FreshTexts(Seen(page, n)) != [] && Last(FreshTexts(Seen(page, n))) == page(n).extracted.value
    ensures SteadyFrom(page, from, n + 1)
  {
    FreshNext(page, n);
  }

  lemma SteadyStarts(page: nat -> Look, n: nat)
    requires !page(n).streaming && Nonblank(page(n))
    requires FreshTexts(Seen(page, n)) == [] || Last(FreshTexts(Seen(page, n))) != page(n).extracted.value
    ensures SteadyFrom(page, n, n + 1)
  {
    FreshNext(page, n);
    assert Showings(page, n, n) == 0;
  }

  lemma SteadyAfterStreaming(page: nat -> Look, n: nat)
    requires page(n).streaming
    ensures SteadyFrom(page, n + 1, n + 1)
  {
    FreshNext(page, n);
  }

  lemma SteadyNext(page: nat -> Look, from: nat, n: nat) returns (next: nat)
    requires SteadyFrom(page, from, n)
    ensures SteadyFrom(page, next, n + 1)
  {
    var texts := FreshTexts(Seen(page, n));
    if page(n).streaming {
      next := n + 1;
      SteadyAfterStreaming(page, n);
    } else if !Nonblank(page(n)) {
      next := from;
      SteadyOn(page, from, n);
    } else if texts != [] && Last(texts) == page(n).extracted.value {
      next := from;
      SteadyGrows(page, from, n);
    } else {
      next := n;
      SteadyStarts(page, n);
    }
  }

  lemma {:induction false} SteadyReached(page: nat -> Look, n: nat) returns (from: nat)
    ensures SteadyFrom(page, from, n)
  {
    if n == 0 {
      from := 0;
    } else {
      from := SteadyReached(page, n - 1);
      from := SteadyNext(page, from, n - 1);
    }
  }

  ghost predicate SteadyFor(page: nat -> Look, n: nat, polls: nat, text: Text) {
    exists from: nat :: Steady(page, from, n, text) && Showings(page, from, n) >= polls
  }

  /** An answer is settled exactly when, since some look, no answer was being written, every message that was not blank was one
      and the same text, and there were at least `stablePolls` such messages, or one. */
  lemma SettledExactly(page: nat -> Look, n: nat, stablePolls: int, polls: nat)
    requires polls == if stablePolls < 1 then 1 else stablePolls
    ensures Settled(Seen(page, n), stablePolls) <==> exists text :: SteadyFor(page, n, polls, text)
    ensures forall text :: SteadyFor(page, n, polls, text) ==> text == Last(FreshTexts(Seen(page, n)))
  {
    RunLengthExact(FreshTexts(Seen(page, n)), polls);
    var from := SteadyReached(page, n);
    assert Settled(Seen(page, n), stablePolls) ==> SteadyFor(page, n, polls, Last(FreshTexts(Seen(page, n))));
    forall text, f: nat | Steady(page, f, n, text) && Showings(page, f, n) >= polls
      ensures text == Last(FreshTexts(Seen(page, n))) && RunLength(FreshTexts(Seen(page, n))) >= polls
    {
      SteadyBounded(page, f, n, text);
    }
  }

  predicate ShowsText(l: Look) {
    !l.streaming && Nonblank(l)
  }

  lemma ReadNext(page: nat -> Look, n: nat)
    ensures TextsRead(Seen(page, n + 1))
            == TextsRead(Seen(page, n)) + if ShowsText(page(n)) then [page(n).extracted.value] else []
  {
    SeenNext(page, n);
  }

  /** Among these looks the last that found a message, not blank, while no answer was being written, found this one. */
  ghost predicate LastShown(page: nat -> Look, n: nat, text: Text) {
    exists k :: 0 <= k < n && ShowsText(page(k)) && page(k).extracted.value == text && forall j :: k < j < n ==> !ShowsText(page(j))
  }

  lemma LastShownStays(page: nat -> Look, n: nat, text: Text)
    requires LastShown(page, n, text) && !ShowsText(page(n))
    ensures LastShown(page, n + 1, text)
  {
    var k :| 0 <= k < n && ShowsText(page(k)) && page(k).extracted.value == text && forall j :: k < j < n ==> !ShowsText(page(j));
    assert k < n + 1 && ShowsText(page(k));
  }

  lemma LastShownNow(page: nat -> Look, n: nat)
    requires ShowsText(page(n))
    ensures LastShown(page, n + 1, page(n).extracted.value)
  {
  }

  /** The last text read is that of the last look that found a message, not blank, while no answer was being written. */
  lemma {:induction false} LastReadExactly(page: nat -> Look, n: nat)
    ensures TextsRead(Seen(page, n)) == [] <==> forall k :: 0 <= k < n ==> !ShowsText(page(k))
    ensures TextsRead(Seen(page, n)) != [] ==> LastShown(page, n, Last(TextsRead(Seen(page, n))))
  {
    if n > 0 {
      LastReadExactly(page, n - 1);
      ReadNext(page, n - 1);
      if ShowsText(page(n - 1)) {
        LastShownNow(page, n - 1);
      } else if TextsRead(Seen(page, n - 1)) != [] {
        LastShownStays(page, n - 1, Last(TextsRead(Seen(page, n - 1))));
      }
    }
  }

  ghost predicate InTime(clock: nat -> int, start: int, timeout: int, n: nat) {
    forall k :: 0 <= k < n ==> clock(k) - start <= timeout
  }

  /** What the wait must answer when it has looked at the page `looks` times within the timeout (and, when that is used up,
      once more). */
  ghost predicate RightResponse(page: nat -> Look, clock: nat -> int, start: int, timeout: int, stablePolls: int, looks: nat,
                                r: Response)
  {
    && InTime(clock, start, timeout, looks)
    && (forall k :: 0 <= k < looks ==> !Settled(Seen(page, k), stablePolls))
    && match r
       case Stable(text) => Settled(Seen(page, looks), stablePolls) && text == Last(FreshTexts(Seen(page, looks)))
       case _ =>
         && clock(looks) - start > timeout
         && !Settled(Seen(page, looks), stablePolls)
         && r == if page(looks).streaming then StillStreaming
                 else if TextsRead(Seen(page, looks)) == [] then NotFound
                 else Unstable(Last(TextsRead(Seen(page, looks))))
  }

  lemma SeenNext(page: nat -> Look, n: nat)
    ensures Seen(page, n + 1)[..n] == Seen(page, n)
  {
  }

  lemma {:induction false} ReadNotEmpty(looks: seq<Look>)
    ensures forall t :: t in TextsRead(looks) ==> t != []
    decreases |looks|
  {
    if looks != [] {
      ReadNotEmpty(looks[..|looks| - 1]);
    }
  }

  lemma LastOfTexts(looks: seq<Look>)
    ensures Last(TextsRead(looks)) == [] <==> TextsRead(looks) == []
  {
    ReadNotEmpty(looks);
    var t := TextsRead(looks);
    assert t != [] ==> t[|t| - 1] in t;
  }

  /** One more look: what happens to the remembered text and to the counter. */
  lemma OneLook(page: nat -> Look, n: nat)
    ensures var before, after := Seen(page, n), Seen(page, n + 1);
            && (page(n).streaming ==> FreshTexts(after) == [] && TextsRead(after) == TextsRead(before))
            && (!page(n).streaming && !Readable(page(n)) ==>
                  FreshTexts(after) == FreshTexts(before) && TextsRead(after) == TextsRead(before))
            && (Readable(page(n)) ==>
                  && TextsRead(after) == TextsRead(before) + [page(n).extracted.value]
                  && RunLength(FreshTexts(after))
                     == if Last(TextsRead(before)) == page(n).extracted.value then RunLength(FreshTexts(before)) + 1 else 1)
  {
    var before, after := Seen(page, n), Seen(page, n + 1);
    SeenNext(page, n);
    if Readable(page(n)) {
      var text := page(n).extracted.value;
      assert FreshTexts(after) == FreshTexts(before) + [text];
      assert (FreshTexts(before) + [text])[..|FreshTexts(before)|] == FreshTexts(before);
      FreshEndsRead(before);
      assert Trim([]) == [];
      assert text != [];
    }
  }

  /** The loop before its `n`-th turn: no answer has been stable, and the variables say what has been read. */
  ghost predicate Waiting(page: nat -> Look, stablePolls: int, n: nat, lastText: Text, stableCount: nat) {
    && lastText == Last(TextsRead(Seen(page, n)))
    && stableCount == RunLength(FreshTexts(Seen(page, n)))
    && forall k :: 0 <= k <= n ==> !Settled(Seen(page, k), stablePolls)
  }

  lemma WaitingOn(page: nat -> Look, stablePolls: int, n: nat, lastText: Text, stableCount: nat)
    requires Waiting(page, stablePolls, n, lastText, stableCount) && !Readable(page(n))
    ensures Waiting(page, stablePolls, n + 1, lastText, if page(n).streaming then 0 else stableCount)
  {
    OneLook(page, n);
    assert !Settled(Seen(page, n), stablePolls);
    assert !Settled(Seen(page, n + 1), stablePolls);
  }

  lemma WaitingReads(page: nat -> Look, stablePolls: int, n: nat, lastText: Text, stableCount: nat)
    requires Waiting(page, stablePolls, n, lastText, stableCount) && Readable(page(n))
    ensures var text := page(n).extracted.value;
            var count := if text == lastText then stableCount + 1 else 1;
            if count >= stablePolls then Settled(Seen(page, n + 1), stablePolls) && text == Last(FreshTexts(Seen(page, n + 1)))
            else Waiting(page, stablePolls, n + 1, text, count)
  {
    OneLook(page, n);
    var texts := FreshTexts(Seen(page, n + 1));
    RunLengthExact(texts, if stablePolls < 1 then 1 else stablePolls);
    FreshEndsRead(Seen(page, n + 1));
    assert RunLength(texts) >= 1;
  }

  /** The answer once the time is used up. */
  lemma GaveUp(page: nat -> Look, clock: nat -> int, start: int, timeout: int, stablePolls: int, n: nat, lastText: Text,
               stableCount: nat)
    requires InTime(clock, start, timeout, n) && clock(n) - start > timeout
    requires Waiting(page, stablePolls, n, lastText, stableCount)
    ensures page(n).streaming ==> RightResponse(page, clock, start, timeout, stablePolls, n, StillStreaming)
    ensures !page(n).streaming && lastText == [] ==> RightResponse(page, clock, start, timeout, stablePolls, n, NotFound)
    ensures !page(n).streaming && lastText != [] ==>
              RightResponse(page, clock, start, timeout, stablePolls, n, Unstable(lastText))
  {
    LastOfTexts(Seen(page, n));
  }

  /** The answer when a look has settled it. */
  lemma SettledNow(page: nat -> Look, clock: nat -> int, start: int, timeout: int, stablePolls: int, n: nat, lastText: Text,
                   stableCount: nat)
    requires InTime(clock, start, timeout, n) && clock(n) - start <= timeout
    requires Waiting(page, stablePolls, n, lastText, stableCount)
    requires Settled(Seen(page, n + 1), stablePolls)
    ensures RightResponse(page, clock, start, timeout, stablePolls, n + 1, Stable(Last(FreshTexts(Seen(page, n + 1)))))
  {
  }

  /** What a text read does to the remembered text and to the counter. */
  method Noted(lastText: Text, stableCount: nat, text: Text) returns (r: Text, count: nat)
    ensures r == text && count == if text == lastText then stableCount + 1 else 1
  {
    if text == lastText {
      return lastText, stableCount + 1;
    }
    return text, 1;
  }

  /** One turn of the loop. */
  method TakeLook(page: nat -> Look, stablePolls: int, n: nat, lastText: Text, stableCount: nat)
    returns (text: Text, count: nat, settled: bool)
    requires Waiting(page, stablePolls, n, lastText, stableCount)
    ensures if settled then Settled(Seen(page, n + 1), stablePolls) && text == Last(FreshTexts(Seen(page, n + 1)))
            else Waiting(page, stablePolls, n + 1, text, count)
  {
    if page(n).streaming {
      WaitingOn(page, stablePolls, n, lastText, stableCount);
      return lastText, 0, false;
    }
    if page(n).extracted.None? || Trim(page(n).extracted.value) == [] {
      WaitingOn(page, stablePolls, n, lastText, stableCount);
      return lastText, stableCount, false;
    }
    WaitingReads(page, stablePolls, n, lastText, stableCount);
    text, count := Noted(lastText, stableCount, page(n).extracted.value);
    settled := count >= stablePolls;
  }

  /** What is answered after the loop. */
  method GiveUp(page: nat -> Look, clock: nat -> int, start: int, timeout: int, stablePolls: int, n: nat, lastText: Text,
                ghost stableCount: nat)
    returns (r: Response)
    requires InTime(clock, start, timeout, n) && clock(n) - start > timeout
    requires Waiting(page, stablePolls, n, lastText, stableCount)
    ensures RightResponse(page, clock, start, timeout, stablePolls, n, r)
  {
    GaveUp(page, clock, start, timeout, stablePolls, n, lastText, stableCount);
    if page(n).streaming {
      return StillStreaming;
    }
    if lastText == [] {
      return NotFound;
    }
    return Unstable(lastText);
  }

  /** `waitForStableAssistantResponse`: `clock(k)` and `page(k)` are the clock and the page at the `k`-th turn of the loop.
      A clock that never passes the timeout would keep the loop turning; `late` is a turn at which it has passed. */
  method WaitForStableAssistantResponse(page: nat -> Look, clock: nat -> int, start: int, timeout: int, stablePolls: int,
                                        ghost late: nat)
    returns (r: Response, looks: nat)
    requires clock(late) - start > timeout
    ensures looks <= late
    ensures RightResponse(page, clock, start, timeout, stablePolls, looks, r)
  {
    var lastText: Text := [];
    var stableCount: nat := 0;
    var n: nat := 0;
    while clock(n) - start <= timeout
      invariant n <= late
      invariant InTime(clock, start, timeout, n)
      invariant Waiting(page, stablePolls, n, lastText, stableCount)
      decreases late - n
    {
      var text, count, settled := TakeLook(page, stablePolls, n, lastText, stableCount);
      if settled {
        SettledNow(page, clock, start, timeout, stablePolls, n, lastText, stableCount);
        return Stable(text), n + 1;
      }
      lastText, stableCount := text, count;
      n := n + 1;
    }
    r := GiveUp(page, clock, start, timeout, stablePolls, n, lastText, stableCount);
    return r, n;
  }

  /** The wait succeeds exactly when the answer is ever stable within the time given. */
  lemma StableExactly(page: nat -> Look, clock: nat -> int, start: int, timeout: int, stablePolls: int, looks: nat, r: Response)
    requires RightResponse(page, clock, start, timeout, stablePolls, looks, r)
    ensures r.Stable? <==> exists k: nat :: InTime(clock, start, timeout, k) && Settled(Seen(page, k), stablePolls)
  {
    assert r.Stable? ==> InTime(clock, start, timeout, looks) && Settled(Seen(page, looks), stablePolls);
  }

  /** There is only one right answer, and one number of looks at which to give it. */
  lemma OneRightResponse(page: nat -> Look, clock: nat -> int, start: int, timeout: int, stablePolls: int, m: nat, q: Response,
                         n: nat, r: Response)
    requires RightResponse(page, clock, start, timeout, stablePolls, m, q)
    requires RightResponse(page, clock, start, timeout, stablePolls, n, r)
    ensures m == n && q == r
  {
  }

  /** The clock moves on by at least the polling interval at every turn. */
  ghost predicate Advances(clock: nat -> int, start: int, interval: int) {
    clock(0) >= start && forall k: nat :: clock(k + 1) >= clock(k) + interval
  }

  lemma {:induction false} AdvancedBy(clock: nat -> int, start: int, interval: int, k: nat)
    requires Advances(clock, start, interval)
    ensures clock(k) >= start + k * interval
  {
    if k > 0 {
      AdvancedBy(clock, start, interval, k - 1);
      assert clock(k - 1 + 1) >= clock(k - 1) + interval;
      assert k * interval == (k - 1) * interval + interval;
    }
  }

  /** The loop ends, and after at most timeout / interval + 1 looks. */
  lemma BoundedLooks(clock: nat -> int, start: int, timeout: int, interval: int)
    requires interval > 0 && timeout >= 0 && Advances(clock, start, interval)
    ensures clock(timeout / interval + 1) - start > timeout
    ensures forall n: nat :: InTime(clock, start, timeout, n) ==> n <= timeout / interval + 1
  {
    var last := timeout / interval + 1;
    AdvancedBy(clock, start, interval, last);
    assert timeout == timeout / interval * interval + timeout % interval;
    assert last * interval == timeout / interval * interval + interval;
  }

  // ---- The section under a marker ----

  const LF: CodeUnit := 10
  const CR: CodeUnit := 13

  /** `replace(/\r\n/g, '\n')` */
  function UnixLines(t: Text): Text {
    if t == [] then [] else if |t| > 1 && t[0] == CR && t[1] == LF then [LF] + UnixLines(t[2..]) else [t[0]] + UnixLines(t[1..])
  }

  /** `split('\n')` */
  function SplitLines(t: Text): (lines: seq<Text>)
    ensures lines != []
  {
    if t == [] then [[]]
    else
      var rest := SplitLines(t[1..]);
      if t[0] == LF then [[]] + rest else [[t[0]] + rest[0]] + rest[1..]
  }

  lemma {:induction false} JoinHead(c: CodeUnit, lines: seq<Text>)
    requires lines != []
    ensures Join([[c] + lines[0]] + lines[1..], LF) == [c] + Join(lines, LF)
  {
    var longer := [[c] + lines[0]] + lines[1..];
    if |lines| > 1 {
      assert longer[1..] == lines[1..];
      assert [c] + lines[0] + [LF] + Join(lines[1..], LF) == [c] + (lines[0] + [LF] + Join(lines[1..], LF));
    }
  }

  lemma {:induction false} JoinSplit(t: Text)
    ensures Join(SplitLines(t), LF) == t
  {
    if t != [] {
      JoinSplit(t[1..]);
      var rest := SplitLines(t[1..]);
      if t[0] == LF {
        assert ([[]] + rest)[1..] == rest;
      } else {
        JoinHead(t[0], rest);
      }
      assert t == [t[0]] + t[1..];
    }
  }

  lemma {:induction false} JoinParts(a: seq<Text>, b: seq<Text>)
    requires a != [] && b != []
    ensures Join(a + b, LF) == Join(a, LF) + [LF] + Join(b, LF)
  {
    if |a| == 1 {
      assert (a + b)[1..] == b;
    } else {
      JoinParts(a[1..], b);
      assert (a + b)[1..] == a[1..] + b;
    }
  }

  // The text up to `n` without the carriage returns that a line feed follows.
  function Kept(t: Text, n: nat): Text
    requires n <= |t|
  {
    if n == 0 then [] else Kept(t, n - 1) + if t[n - 1] == CR && n < |t| && t[n] == LF then [] else [t[n - 1]]
  }

  lemma {:induction false} KeptThenRest(t: Text, i: nat)
    requires i <= |t|
    ensures Kept(t, i) + UnixLines(t[i..]) == Kept(t, |t|)
    decreases |t| - i
  {
    if i < |t| {
      var r := t[i..];
      assert r[1..] == t[i + 1..];
      if |r| > 1 && r[0] == CR && r[1] == LF {
        assert r[2..] == t[i + 2..];
        KeptThenRest(t, i + 2);
        assert Kept(t, i + 2) == Kept(t, i) + [LF];
      } else {
        KeptThenRest(t, i + 1);
      }
    }
  }

  /** Exactly the carriage returns that a line feed follows are taken out. */
  lemma UnixLinesExactly(t: Text)
    ensures UnixLines(t) == Kept(t, |t|)
  {
    KeptThenRest(t, 0);
    assert t[0..] == t;
  }

  /** How many `#` a text starts with. */
  function Hashes(t: Text): (n: nat)
    ensures n <= |t| && (forall k :: 0 <= k < n ==> t[k] == '#' as int) && (n < |t| ==> t[n] != '#' as int)
  {
    if t != [] && t[0] == '#' as int then Hashes(t[1..]) + 1 else 0
  }

  /** One to six `#` and then white space. */
  function HeadingLevel(line: Text): Option<nat> {
    var t := Trim(line);
    var n := Hashes(t);
    if 1 <= n <= 6 && n < |t| && IsSpace(t[n]) then Some(n) else None
  }

  /** Trimmed, the line is `n` hash signs, at most six, and then white space. */
  predicate IsHeading(line: Text, n: nat) {
    && 1 <= n <= 6 && n < |Trim(line)| && (forall k :: 0 <= k < n ==> Trim(line)[k] == '#' as int) && IsSpace(Trim(line)[n])
  }

  lemma HeadingExactly(line: Text, n: nat)
    ensures HeadingLevel(line) == Some(n) <==> IsHeading(line, n)
  {
  }

  /** A heading that ends a section of the given level. */
  predicate Closes(line: Text, level: nat) {
    HeadingLevel(line).Some? && HeadingLevel(line).value <= level
  }

  function MarkerLevel(marker: Text): nat {
    OrElse(HeadingLevel(marker), 6)
  }

  /** `lines.findIndex(p)` from a line on; the number of lines when there is none. */
  function FirstLine(lines: seq<Text>, p: Text -> bool, from: nat): (i: nat)
    requires from <= |lines|
    ensures from <= i <= |lines|
    decreases |lines| - from
  {
    if from == |lines| || p(lines[from]) then from else FirstLine(lines, p, from + 1)
  }

  lemma {:induction false} FirstLineFirst(lines: seq<Text>, p: Text -> bool, from: nat)
    requires from <= |lines|
    ensures var i := FirstLine(lines, p, from);
            && (forall k :: from <= k < i ==> !p(lines[k]))
            && (i < |lines| ==> p(lines[i]))
    decreases |lines| - from
  {
    if from < |lines| && !p(lines[from]) {
      FirstLineFirst(lines, p, from + 1);
    }
  }

  /** The lines under the marker, or none. */
  function LinesUnder(lines: seq<Text>, marks: Text -> bool, closes: Text -> bool): seq<Text> {
    var i := FirstLine(lines, marks, 0);
    if i == |lines| then [] else lines[i + 1..FirstLine(lines, closes, i + 1)]
  }

  function Marks(marker: Text): Text -> bool {
    line => Trim(line) == marker
  }

  function Closer(marker: Text): Text -> bool {
    line => Closes(line, MarkerLevel(marker))
  }

  /** A section is closed by a heading that is not below the marker's, or by any if the marker is none. */
  lemma CloserExactly(marker: Text, line: Text)
    ensures Closer(marker)(line) <==> exists n: nat :: IsHeading(line, n) && forall m: nat :: IsHeading(marker, m) ==> n <= m
  {
    if HeadingLevel(line).Some? { HeadingExactly(line, HeadingLevel(line).value); }
    if HeadingLevel(marker).Some? { HeadingExactly(marker, HeadingLevel(marker).value); }
    forall n: nat | IsHeading(line, n) ensures HeadingLevel(line) == Some(n) {
      HeadingExactly(line, n);
    }
    forall m: nat | IsHeading(marker, m) ensures HeadingLevel(marker) == Some(m) {
      HeadingExactly(marker, m);
    }
  }

  /** The text under the marker in a block, or the empty text. */
  function MarkedText(block: Text, marker: Text): Text {
    Trim(Join(LinesUnder(SplitLines(UnixLines(block)), Marks(marker), Closer(marker)), LF))
  }

  /** A text that ends with the first line that is the marker. */
  ghost predicate EndsAtMarker(before: Text, marks: Text -> bool) {
    && before != [] && before[|before| - 1] == LF
    && var lines := SplitLines(before[..|before| - 1]);
       marks(lines[|lines| - 1]) && forall k :: 0 <= k < |lines| - 1 ==> !marks(lines[k])
  }

  ghost predicate NoneCloses(section: Text, closes: Text -> bool) {
    forall k :: 0 <= k < |SplitLines(section)| ==> !closes(SplitLines(section)[k])
  }

  /** Nothing, or a line break and a line that closes the section. */
  ghost predicate StartsClosed(after: Text, closes: Text -> bool) {
    after != [] ==> after[0] == LF && closes(SplitLines(after[1..])[0])
  }

  /** `section` stands in the text right after the first line that is the marker, and reaches to the next line that closes
      it, or to the end. */
  ghost predicate SectionUnder(text: Text, marks: Text -> bool, closes: Text -> bool, before: Text, section: Text, after: Text) {
    && text == before + section + after
    && EndsAtMarker(before, marks) && NoneCloses(section, closes) && StartsClosed(after, closes)
  }

  predicate NoLf(lines: seq<Text>) {
    forall k :: 0 <= k < |lines| ==> LF !in lines[k]
  }

  lemma NoLfParts(a: seq<Text>, b: seq<Text>, c: seq<Text>)
    requires NoLf(a + b + c)
    ensures NoLf(a) && NoLf(b) && NoLf(c)
  {
    assert forall k :: 0 <= k < |a| ==> a[k] == (a + b + c)[k];
    assert forall k :: 0 <= k < |b| ==> b[k] == (a + b + c)[|a| + k];
    assert forall k :: 0 <= k < |c| ==> c[k] == (a + b + c)[|a| + |b| + k];
  }

  lemma {:induction false} SplitNoLf(t: Text)
    ensures NoLf(SplitLines(t))
  {
    if t != [] {
      SplitNoLf(t[1..]);
    }
  }

  lemma {:induction false} SplitAtLf(line: Text, rest: Text)
    requires LF !in line
    ensures SplitLines(line) == [line]
    ensures SplitLines(line + [LF] + rest) == [line] + SplitLines(rest)
  {
    var t := line + [LF] + rest;
    if line == [] {
      assert t[1..] == rest;
    } else {
      SplitAtLf(line[1..], rest);
      assert t[1..] == line[1..] + [LF] + rest;
      assert line == [line[0]] + line[1..];
    }
  }

  lemma {:induction false} SplitJoin(lines: seq<Text>)
    requires lines != [] && NoLf(lines)
    ensures SplitLines(Join(lines, LF)) == lines
  {
    if |lines| == 1 {
      SplitAtLf(lines[0], []);
    } else {
      SplitJoin(lines[1..]);
      SplitAtLf(lines[0], Join(lines[1..], LF));
      assert lines == [lines[0]] + lines[1..];
    }
  }

  function After(tail: seq<Text>): Text {
    if tail == [] then [] else [LF] + Join(tail, LF)
  }

  lemma TextOfParts(head: seq<Text>, middle: seq<Text>, tail: seq<Text>)
    requires head != [] && middle != []
    ensures Join(head + middle + tail, LF) == Join(head, LF) + [LF] + Join(middle, LF) + After(tail)
  {
    assert head + middle + tail == head + (middle + tail);
    JoinParts(head, middle + tail);
    if tail == [] {
      assert middle + tail == middle;
    } else {
      JoinParts(middle, tail);
      var a, b := Join(head, LF) + [LF], Join(middle, LF);
      assert a + (b + [LF] + Join(tail, LF)) == a + b + ([LF] + Join(tail, LF));
    }
  }

  lemma HeadEndsAtMarker(head: seq<Text>, marks: Text -> bool)
    requires head != [] && NoLf(head) && marks(head[|head| - 1]) && forall k :: 0 <= k < |head| - 1 ==> !marks(head[k])
    ensures EndsAtMarker(Join(head, LF) + [LF], marks)
  {
    SplitJoin(head);
    DropLast(Join(head, LF), LF);
  }

  lemma DropLast(t: Text, c: CodeUnit)
    ensures (t + [c])[..|t + [c]| - 1] == t && (t + [c])[|t + [c]| - 1] == c
  {
  }

  lemma TailStartsClosed(tail: seq<Text>, closes: Text -> bool)
    requires NoLf(tail) && (tail != [] ==> closes(tail[0]))
    ensures StartsClosed(After(tail), closes)
  {
    if tail != [] {
      SplitJoin(tail);
      DropFirst(LF, Join(tail, LF));
    }
  }

  lemma DropFirst(c: CodeUnit, t: Text)
    ensures ([c] + t)[0] == c && ([c] + t)[1..] == t
  {
  }

  lemma MiddleNoneCloses(middle: seq<Text>, closes: Text -> bool)
    requires middle != [] && NoLf(middle) && forall k :: 0 <= k < |middle| ==> !closes(middle[k])
    ensures NoneCloses(Join(middle, LF), closes)
  {
    SplitJoin(middle);
  }

  lemma LinesUnderParts(lines: seq<Text>, marks: Text -> bool, closes: Text -> bool) returns (head: seq<Text>, tail: seq<Text>)
    requires LinesUnder(lines, marks, closes) != []
    ensures head != [] && lines == head + LinesUnder(lines, marks, closes) + tail
    ensures marks(head[|head| - 1]) && forall k :: 0 <= k < |head| - 1 ==> !marks(head[k])
    ensures forall k :: 0 <= k < |LinesUnder(lines, marks, closes)| ==> !closes(LinesUnder(lines, marks, closes)[k])
    ensures tail != [] ==> closes(tail[0])
  {
    var i := FirstLine(lines, marks, 0);
    var e := FirstLine(lines, closes, i + 1);
    head, tail := lines[..i + 1], lines[e..];
    FirstLineFirst(lines, marks, 0);
    FirstLineFirst(lines, closes, i + 1);
    CutTwice(lines, i + 1, e);
    NoneInSlice(lines, closes, i + 1, e);
    NoneInSlice(lines, marks, 0, i);
  }

  lemma CutTwice<T>(s: seq<T>, i: nat, e: nat)
    requires i <= e <= |s|
    ensures s == s[..i] + s[i..e] + s[e..]
  {
  }

  lemma NoneInSlice(lines: seq<Text>, p: Text -> bool, from: nat, to: nat)
    requires from <= to <= |lines| && forall k :: from <= k < to ==> !p(lines[k])
    ensures forall k :: 0 <= k < to - from ==> !p(lines[from..to][k])
  {
    forall k | 0 <= k < to - from ensures !p(lines[from..to][k]) {
      assert lines[from..to][k] == lines[from + k];
    }
  }

  lemma LinesUnderSection(text: Text, marks: Text -> bool, closes: Text -> bool)
    requires LinesUnder(SplitLines(text), marks, closes) != []
    ensures exists before, after ::
              SectionUnder(text, marks, closes, before, Join(LinesUnder(SplitLines(text), marks, closes), LF), after)
  {
    var lines := SplitLines(text);
    var middle := LinesUnder(lines, marks, closes);
    var head, tail := LinesUnderParts(lines, marks, closes);
    JoinSplit(text);
    SplitNoLf(text);
    assert NoLf(head) && NoLf(middle) && NoLf(tail) by { NoLfParts(head, middle, tail); }
    TextOfParts(head, middle, tail);
    HeadEndsAtMarker(head, marks);
    MiddleNoneCloses(middle, closes);
    TailStartsClosed(tail, closes);
    assert SectionUnder(text, marks, closes, Join(head, LF) + [LF], Join(middle, LF), After(tail));
  }

  /** What is extracted is, trimmed, exactly the section under the marker: nothing skipped, nothing added, no heading that
      closes it inside. */
  lemma MarkedTextIsSection(block: Text, marker: Text)
    requires MarkedText(block, marker) != []
    ensures exists before, section, after ::
              && SectionUnder(UnixLines(block), Marks(marker), Closer(marker), before, section, after)
              && MarkedText(block, marker) == Trim(section)
  {
    var t := UnixLines(block);
    EmptySection();
    LinesUnderSection(t, Marks(marker), Closer(marker));
  }

  lemma SplitConcat(a: Text, b: Text)
    ensures SplitLines(a + [LF] + b) == SplitLines(a) + SplitLines(b)
  {
    JoinSplit(a);
    JoinSplit(b);
    SplitNoLf(a);
    SplitNoLf(b);
    JoinParts(SplitLines(a), SplitLines(b));
    SplitJoin(SplitLines(a) + SplitLines(b));
  }

  lemma LinesOfSection(text: Text, head: Text, section: Text, after: Text)
    requires text == head + [LF] + section + after && (after != [] ==> after[0] == LF)
    ensures SplitLines(text) == SplitLines(head) + SplitLines(section) + if after == [] then [] else SplitLines(after[1..])
  {
    if after == [] {
      assert text == head + [LF] + section;
      SplitConcat(head, section);
    } else {
      assert after == [LF] + after[1..];
      assert text == (head + [LF] + section) + [LF] + after[1..];
      SplitConcat(head + [LF] + section, after[1..]);
      SplitConcat(head, section);
    }
  }

  lemma {:induction false} FirstLineAt(lines: seq<Text>, p: Text -> bool, from: nat, i: nat)
    requires from <= i <= |lines| && (forall k :: from <= k < i ==> !p(lines[k])) && (i < |lines| ==> p(lines[i]))
    ensures FirstLine(lines, p, from) == i
    decreases i - from
  {
    if from < i {
      FirstLineAt(lines, p, from + 1, i);
    }
  }

  lemma LinesUnderAre(head: seq<Text>, middle: seq<Text>, tail: seq<Text>, marks: Text -> bool, closes: Text -> bool)
    requires head != [] && marks(head[|head| - 1]) && forall k :: 0 <= k < |head| - 1 ==> !marks(head[k])
    requires (forall k :: 0 <= k < |middle| ==> !closes(middle[k])) && (tail != [] ==> closes(tail[0]))
    ensures LinesUnder(head + middle + tail, marks, closes) == middle
  {
    var lines := head + middle + tail;
    FirstLineAt(lines, marks, 0, |head| - 1);
    forall k | |head| <= k < |head + middle| ensures !closes(lines[k]) {
      assert lines[k] == middle[k - |head|];
    }
    FirstLineAt(lines, closes, |head|, |head + middle|);
    assert lines[|head|..|head + middle|] == middle;
  }

  /** And the other way round: wherever a section stands under the marker, it is what is extracted, trimmed. */
  lemma SectionIsMarkedText(block: Text, marker: Text, before: Text, section: Text, after: Text)
    requires SectionUnder(UnixLines(block), Marks(marker), Closer(marker), before, section, after)
    ensures MarkedText(block, marker) == Trim(section)
  {
    SectionLinesUnder(UnixLines(block), Marks(marker), Closer(marker), before, section, after);
    JoinSplit(section);
  }

  lemma SectionLinesUnder(text: Text, marks: Text -> bool, closes: Text -> bool, before: Text, section: Text, after: Text)
    requires SectionUnder(text, marks, closes, before, section, after)
    ensures LinesUnder(SplitLines(text), marks, closes) == SplitLines(section)
  {
    var head := before[..|before| - 1];
    assert before == head + [LF];
    LinesOfSection(text, head, section, after);
    LinesUnderAre(SplitLines(head), SplitLines(section), if after == [] then [] else SplitLines(after[1..]), marks, closes);
  }

  lemma EmptySection()
    ensures Trim(Join([], LF)) == []
  {
  }

  /** The lines after the marker, up to the one that closes the section. */
  method SectionLines(lines: seq<Text>, markerIndex: nat, closes: Text -> bool) returns (extractedLines: seq<Text>)
    requires markerIndex < |lines|
    ensures extractedLines == lines[markerIndex + 1..FirstLine(lines, closes, markerIndex + 1)]
  {
    extractedLines := [];
    var index := markerIndex + 1;
    while index < |lines| && !closes(lines[index])
      invariant markerIndex < index <= |lines|
      invariant extractedLines == lines[markerIndex + 1..index]
      invariant FirstLine(lines, closes, index) == FirstLine(lines, closes, markerIndex + 1)
    {
      extractedLines := extractedLines + [lines[index]];
      index := index + 1;
    }
  }

  method MarkedBlock(block: Text, marker: Text) returns (text: Text)
    ensures text == MarkedText(block, marker)
  {
    var lines := SplitLines(UnixLines(block));
    var markerIndex := FirstLine(lines, Marks(marker), 0);
    var extractedLines: seq<Text> := [];
    if markerIndex < |lines| {
      extractedLines := SectionLines(lines, markerIndex, Closer(marker));
    }
    return Trim(Join(extractedLines, LF));
  }

  /** Every block before `k` is without text under the marker. */
  ghost predicate NoneBefore(blocks: seq<Text>, text: Text -> Text, k: nat) {
    k <= |blocks| && forall j :: 0 <= j < k ==> text(blocks[j]) == []
  }

  function TextUnder(marker: Text): Text -> Text {
    block => MarkedText(block, marker)
  }

  lemma NoneBeforeNext(blocks: seq<Text>, text: Text -> Text, k: nat)
    requires NoneBefore(blocks, text, k) && k < |blocks| && text(blocks[k]) == []
    ensures NoneBefore(blocks, text, k + 1)
  {
  }

  /** `extractMarkedBlock` over the visible text blocks: the first block with text under the marker. */
  method ExtractMarkedBlock(blocks: seq<Text>, marker: Text) returns (r: Option<Text>)
    ensures r.None? ==> NoneBefore(blocks, TextUnder(marker), |blocks|)
    ensures r.Some? ==> exists k: nat :: k < |blocks| && NoneBefore(blocks, TextUnder(marker), k)
                                         && r.value == MarkedText(blocks[k], marker) != []
  {
    var k := 0;
    while k < |blocks|
      invariant NoneBefore(blocks, TextUnder(marker), k)
    {
      var text := MarkedBlock(blocks[k], marker);
      if text != [] {
        return Some(text);
      }
      NoneBeforeNext(blocks, TextUnder(marker), k);
      k := k + 1;
    }
    return None;
  }
}
