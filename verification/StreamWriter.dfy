/**
 The writer behind a streaming turn.  Text between the bytes 2 and 3 goes to the thinking panel, the
 rest to the main stream and the response buffer, and a retry marker empties the buffer.
 */
module StreamWriter {

  const START := 2 as char
  const END := 3 as char
  const RETRY := "[__GORKBOT_STREAM_RETRY__]"

  function Concat(parts: seq<string>): string {
    if parts == [] then "" else Concat(parts[..|parts| - 1]) + parts[|parts| - 1]
  }

  lemma ConcatSnoc(parts: seq<string>, s: string)
    ensures Concat(parts + [s]) == Concat(parts) + s
  {
    assert (parts + [s])[..|parts|] == parts;
  }

  // ---------------------------------------------------------------------------------------------
  // Routing
  // ---------------------------------------------------------------------------------------------

  /** The two streams a text is split into, and whether it ends inside a thinking block. */
  datatype Routed = Routed(main: string, thinking: string, inThinking: bool)

  function RouteChar(r: Routed, c: char): Routed {
    if c == START then r.(inThinking := true)
    else if c == END then r.(thinking := r.thinking + [END], inThinking := false)
    else if r.inThinking then r.(thinking := r.thinking + [c])
    else r.(main := r.main + [c])
  }

  function Route(inThinking: bool, s: string): Routed {
    if s == "" then Routed("", "", inThinking)
    else RouteChar(Route(inThinking, s[..|s| - 1]), s[|s| - 1])
  }

  /** One routed piece of text after another. */
  function Then(r1: Routed, r2: Routed): Routed {
    Routed(r1.main + r2.main, r1.thinking + r2.thinking, r2.inThinking)
  }

  lemma RouteCharThen(r1: Routed, r2: Routed, c: char)
    ensures RouteChar(Then(r1, r2), c) == Then(r1, RouteChar(r2, c))
  {
    assert forall x: string, y: string :: (x + y) + [c] == x + (y + [c]);
  }

  /** Cutting the text anywhere and carrying the mode over changes nothing. */
  lemma {:induction false} RouteConcat(inThinking: bool, a: string, b: string)
    ensures var ra := Route(inThinking, a);
            Route(inThinking, a + b) == Then(ra, Route(ra.inThinking, b))
    decreases |b|
  {
    var ra := Route(inThinking, a);
    if b == "" {
      assert a + b == a;
    } else {
      var n := |b| - 1;
      RouteConcat(inThinking, a, b[..n]);
      assert (a + b)[..|a + b| - 1] == a + b[..n];
      RouteCharThen(ra, Route(ra.inThinking, b[..n]), b[n]);
    }
  }

  /** Text without markers goes to the main stream as it is. */
  lemma {:induction false} PlainTextIsMain(s: string)
    requires START !in s && END !in s
    ensures Route(false, s) == Routed(s, "", false)
    decreases |s|
  {
    if s != "" {
      PlainTextIsMain(s[..|s| - 1]);
    }
  }

  /** Position `i` lies in a thinking block: the last marker before it opened one. */
  ghost predicate Thinking(inThinking: bool, s: string, i: nat)
    requires i <= |s|
  {
    || (inThinking && END !in s[..i])
    || exists j :: 0 <= j < i && s[j] == START && END !in s[j..i]
  }

  /** The characters of `s` at the positions below `n` that are kept, in order. */
  ghost function Picked(s: string, n: nat, keep: nat -> bool): string
    requires n <= |s|
  {
    if n == 0 then "" else Picked(s, n - 1, keep) + (if keep(n - 1) then [s[n - 1]] else "")
  }

  ghost function MainAt(inThinking: bool, s: string): nat -> bool {
    (i: nat) => i < |s| && s[i] != START && s[i] != END && !Thinking(inThinking, s, i)
  }

  ghost function ThinkingAt(inThinking: bool, s: string): nat -> bool {
    (i: nat) => i < |s| && (s[i] == END || (s[i] != START && Thinking(inThinking, s, i)))
  }

  /** How one more character changes the mode. */
  lemma ThinkingStep(inThinking: bool, s: string, i: nat)
    requires 0 < i <= |s|
    ensures Thinking(inThinking, s, i) <==>
            s[i - 1] == START || (s[i - 1] != END && Thinking(inThinking, s, i - 1))
  {
    var c := s[i - 1];
    forall j | 0 <= j < i
      ensures END in s[j..i] <==> c == END || END in s[j..i - 1]
    {
      assert s[j..i] == s[j..i - 1] + [c];
    }
    assert s[..i] == s[..i - 1] + [c];
    if c == START {
      assert END !in s[i - 1..i];
    }
  }

  lemma {:induction false} ModeIsThinking(inThinking: bool, s: string, i: nat)
    requires i <= |s|
    ensures Route(inThinking, s[..i]).inThinking <==> Thinking(inThinking, s, i)
    decreases i
  {
    if i > 0 {
      ModeIsThinking(inThinking, s, i - 1);
      assert s[..i][..i - 1] == s[..i - 1];
      ThinkingStep(inThinking, s, i);
    }
  }

  /** Every character goes to exactly one stream, decided by the last marker before it, in order. */
  lemma {:induction false} RouteIsPicking(inThinking: bool, s: string, n: nat)
    requires n <= |s|
    ensures Route(inThinking, s[..n]).main == Picked(s, n, MainAt(inThinking, s))
    ensures Route(inThinking, s[..n]).thinking == Picked(s, n, ThinkingAt(inThinking, s))
    decreases n
  {
    if n > 0 {
      RouteIsPicking(inThinking, s, n - 1);
      ModeIsThinking(inThinking, s, n - 1);
      assert s[..n][..n - 1] == s[..n - 1];
    }
  }

  // ---------------------------------------------------------------------------------------------
  // The writer
  // ---------------------------------------------------------------------------------------------

  /** What a listener has seen: the buffer and the two streams, run together. */
  datatype View = View(inThinking: bool, buffer: string, main: string, thinking: string)

  datatype Wiring = Wiring(callback: bool, thinkingCallback: bool)

  /** How this writer splits a text: without a thinking callback markers mean nothing. */
  function Split(w: Wiring, inThinking: bool, s: string): Routed {
    if w.thinkingCallback then Route(inThinking, s) else Routed(s, "", inThinking)
  }

  function Extend(w: Wiring, v: View, r: Routed): View {
    View(r.inThinking, v.buffer + r.main, v.main + (if w.callback then r.main else ""),
         v.thinking + r.thinking)
  }

  lemma ExtendThen(w: Wiring, v: View, r1: Routed, r2: Routed)
    ensures Extend(w, Extend(w, v, r1), r2) == Extend(w, v, Then(r1, r2))
  {
    Concat3(v.buffer, r1.main, r2.main);
    Concat3(v.main, r1.main, r2.main);
    Concat3(v.thinking, r1.thinking, r2.thinking);
  }

  lemma Concat3(a: string, b: string, c: string)
    ensures (a + b) + c == a + (b + c)
  {
  }

  /** The effect of writing one chunk. */
  function Wrote(w: Wiring, v: View, s: string): View {
    if s == RETRY then v.(buffer := "", main := v.main + if w.callback then s else "")
    else Extend(w, v, Split(w, v.inThinking, s))
  }

  class Writer {
    const wiring: Wiring
    var inThinking: bool
    var thinkingBuf: string
    var buffer: string
    var tokenCount: nat
    // the arguments of the calls made so far
    var mainCalls: seq<string>
    var thinkingCalls: seq<string>

    ghost predicate Valid()
      reads this
    {
      thinkingBuf == "" && (!wiring.thinkingCallback ==> !inThinking)
    }

    ghost function Seen(): View
      reads this
    {
      View(inThinking, buffer, Concat(mainCalls), Concat(thinkingCalls))
    }

    /** Nothing of the chunk is left for the main stream, so it is not counted as a token. */
    ghost predicate UsedUp(p: string)
      reads this
    {
      && wiring.thinkingCallback && (inThinking || START in p || END in p)
      && Route(inThinking, p).main == ""
    }

    constructor (wiring: Wiring)
      ensures Valid() && Seen() == View(false, "", "", "") && this.wiring == wiring
    {
      this.wiring := wiring;
      inThinking, thinkingBuf, buffer, tokenCount := false, "", "", 0;
      mainCalls, thinkingCalls := [], [];
    }

    method Flush()
      modifies this`thinkingBuf, this`thinkingCalls
      ensures thinkingBuf == ""
      ensures Concat(thinkingCalls) == old(Concat(thinkingCalls) + thinkingBuf)
    {
      if |thinkingBuf| > 0 {
        ConcatSnoc(thinkingCalls, thinkingBuf);
        thinkingCalls := thinkingCalls + [thinkingBuf];
        thinkingBuf := "";
      }
    }

    /** The character loop; leaves the unflushed tail of a thinking block in `thinkingBuf`. */
    method SplitText(s: string) returns (mainText: string)
      requires Valid() && wiring.thinkingCallback
      modifies this`inThinking, this`thinkingBuf, this`thinkingCalls
      ensures var r := Route(old(inThinking), s);
              && mainText == r.main && inThinking == r.inThinking
              && Concat(thinkingCalls) + thinkingBuf == old(Concat(thinkingCalls)) + r.thinking
      ensures thinkingBuf != "" ==> inThinking
    {
      mainText := "";
      for i := 0 to |s|
        invariant var r := Route(old(inThinking), s[..i]);
                  && mainText == r.main && inThinking == r.inThinking
                  && Concat(thinkingCalls) + thinkingBuf == old(Concat(thinkingCalls)) + r.thinking
        invariant thinkingBuf != "" ==> inThinking
      {
        assert s[..i + 1][..i] == s[..i];
        var ch := s[i];
        if ch == START {
          inThinking := true;
        } else if ch == END {
          Flush();
          ConcatSnoc(thinkingCalls, [END]);
          Concat3(old(Concat(thinkingCalls)), Route(old(inThinking), s[..i]).thinking, [END]);
          thinkingCalls := thinkingCalls + [[END]];
          inThinking := false;
        } else if inThinking {
          Concat3(Concat(thinkingCalls), thinkingBuf, [ch]);
          Concat3(old(Concat(thinkingCalls)), Route(old(inThinking), s[..i]).thinking, [ch]);
          thinkingBuf := thinkingBuf + [ch];
        } else {
          mainText := mainText + [ch];
        }
      }
      assert s[..|s|] == s;
    }

    /** What is left of a chunk goes to the callback and the buffer. */
    method Deliver(s: string)
      modifies this`mainCalls, this`tokenCount, this`buffer
      ensures buffer == old(buffer) + s
      ensures Concat(mainCalls) == old(Concat(mainCalls)) + if wiring.callback then s else ""
      ensures tokenCount == old(tokenCount) + 1
    {
      if wiring.callback && s != "" {
        ConcatSnoc(mainCalls, s);
        mainCalls := mainCalls + [s];
      }
      tokenCount := tokenCount + 1;
      buffer := buffer + s;
    }

    /** Take the thinking text out of a chunk and pass it on. */
    method RouteThinking(p: string) returns (s: string, used: bool)
      requires Valid()
      modifies this`inThinking, this`thinkingBuf, this`thinkingCalls
      ensures Valid()
      ensures var r := Split(wiring, old(inThinking), p);
              && s == r.main && inThinking == r.inThinking
              && Concat(thinkingCalls) == old(Concat(thinkingCalls)) + r.thinking
      ensures used == old(UsedUp(p)) && (used ==> s == "")
    {
      s, used := p, false;
      if wiring.thinkingCallback || inThinking {
        if inThinking || START in s || END in s {
          s := SplitText(s);
          if inThinking {
            Flush();
          }
          used := s == "";
        } else {
          PlainTextIsMain(s);
        }
      }
    }

    method Write(p: string)
      requires Valid()
      modifies this
      ensures Valid()
      ensures Seen() == Wrote(wiring, old(Seen()), p)
      ensures tokenCount == old(tokenCount) + if p == RETRY || old(UsedUp(p)) then 0 else 1
    {
      if p == RETRY {
        buffer := "";
        if wiring.callback {
          ConcatSnoc(mainCalls, p);
          mainCalls := mainCalls + [p];
        }
        return;
      }
      var s, used := RouteThinking(p);
      if used {
        assert buffer == buffer + "" && Concat(mainCalls) == Concat(mainCalls) + "";
        return;
      }
      Deliver(s);
    }
  }

  // ---------------------------------------------------------------------------------------------
  // Chunk independence
  // ---------------------------------------------------------------------------------------------

  function WroteAll(w: Wiring, v: View, chunks: seq<string>): View {
    if chunks == [] then v
    else Wrote(w, WroteAll(w, v, chunks[..|chunks| - 1]), chunks[|chunks| - 1])
  }

  lemma SplitConcat(w: Wiring, inThinking: bool, a: string, b: string)
    ensures var ra := Split(w, inThinking, a);
            Split(w, inThinking, a + b) == Then(ra, Split(w, ra.inThinking, b))
  {
    RouteConcat(inThinking, a, b);
  }

  /** A run of writes without retry markers depends on the text alone. */
  lemma {:induction false} WritesFollowTheText(w: Wiring, v: View, chunks: seq<string>)
    requires RETRY !in chunks
    ensures WroteAll(w, v, chunks) == Extend(w, v, Split(w, v.inThinking, Concat(chunks)))
    decreases |chunks|
  {
    if chunks != [] {
      var n := |chunks| - 1;
      var r := Split(w, v.inThinking, Concat(chunks[..n]));
      WritesFollowTheText(w, v, chunks[..n]);
      SplitConcat(w, v.inThinking, Concat(chunks[..n]), chunks[n]);
      ExtendThen(w, v, r, Split(w, r.inThinking, chunks[n]));
    }
  }

  /** What ends up where, by the last marker before each character: the text outside thinking blocks in the
      buffer and, if there is a callback, on the main stream, the text inside them on the thinking stream. */
  lemma StreamsFollowTheMarkers(w: Wiring, v: View, chunks: seq<string>)
    requires RETRY !in chunks && w.thinkingCallback
    ensures var text := Concat(chunks); var end := WroteAll(w, v, chunks);
            var shown := Picked(text, |text|, MainAt(v.inThinking, text));
            && end.buffer == v.buffer + shown
            && end.main == (if w.callback then v.main + shown else v.main)
            && end.thinking == v.thinking + Picked(text, |text|, ThinkingAt(v.inThinking, text))
            && (end.inThinking <==> Thinking(v.inThinking, text, |text|))
  {
    var text := Concat(chunks);
    WritesFollowTheText(w, v, chunks);
    RouteIsPicking(v.inThinking, text, |text|);
    ModeIsThinking(v.inThinking, text, |text|);
    assert text[..|text|] == text && v.main + "" == v.main;
  }

  /** Without a thinking callback markers mean nothing: all text is response text. */
  lemma MarkersAreTextWithoutThinking(w: Wiring, v: View, chunks: seq<string>)
    requires RETRY !in chunks && !w.thinkingCallback
    ensures var text := Concat(chunks);
            WroteAll(w, v, chunks)
            == View(v.inThinking, v.buffer + text, if w.callback then v.main + text else v.main, v.thinking)
  {
    WritesFollowTheText(w, v, chunks);
    assert v.main + "" == v.main && v.thinking + "" == v.thinking;
  }

  /** However the same text is cut into writes, buffer, main stream and thinking stream agree. */
  lemma ChunkIndependence(w: Wiring, v: View, a: seq<string>, b: seq<string>)
    requires RETRY !in a && RETRY !in b && Concat(a) == Concat(b)
    ensures WroteAll(w, v, a) == WroteAll(w, v, b)
  {
    WritesFollowTheText(w, v, a);
    WritesFollowTheText(w, v, b);
  }

  lemma {:induction false} WroteAllConcat(w: Wiring, v: View, a: seq<string>, b: seq<string>)
    ensures WroteAll(w, v, a + b) == WroteAll(w, WroteAll(w, v, a), b)
    decreases |b|
  {
    if b == [] {
      assert a + b == a;
    } else {
      var n := |b| - 1;
      WroteAllConcat(w, v, a, b[..n]);
      assert (a + b)[..|a + b| - 1] == a + b[..n];
    }
  }

  /** The marker itself is shown on the main stream; it empties the buffer and changes nothing else. */
  lemma RetryIsShown(w: Wiring, v: View, before: seq<string>)
    ensures var mid := WroteAll(w, v, before);
            WroteAll(w, v, before + [RETRY])
            == View(mid.inThinking, "", if w.callback then mid.main + RETRY else mid.main, mid.thinking)
  {
    assert (before + [RETRY])[..|before|] == before;
    var mid := WroteAll(w, v, before);
    assert mid.main + "" == mid.main;
  }

  /** After a retry the buffer holds the main text written since, and nothing from before; the
      thinking mode is carried across, and the streams keep what they have shown. */
  lemma RetryDropsTheResponse(w: Wiring, v: View, before: seq<string>, after: seq<string>)
    requires w.thinkingCallback && RETRY !in after
    ensures var mid := WroteAll(w, v, before);
            var end := WroteAll(w, v, before + [RETRY] + after);
            var text := Concat(after);
            var shown := Picked(text, |text|, MainAt(mid.inThinking, text));
            && end.buffer == shown
            && end.main == (if w.callback then mid.main + RETRY + shown else mid.main)
            && end.thinking == mid.thinking + Picked(text, |text|, ThinkingAt(mid.inThinking, text))
            && (end.inThinking <==> Thinking(mid.inThinking, text, |text|))
  {
    WroteAllConcat(w, v, before + [RETRY], after);
    RetryIsShown(w, v, before);
    StreamsFollowTheMarkers(w, WroteAll(w, v, before + [RETRY]), after);
  }

  lemma MarkerHasNoSentinel()
    ensures START !in RETRY && END !in RETRY
  {
  }

  lemma {:induction false} PlainTextIsThinking(s: string)
    requires START !in s && END !in s
    ensures Route(true, s) == Routed("", s, true)
    decreases |s|
  {
    if s != "" {
      PlainTextIsThinking(s[..|s| - 1]);
    }
  }

  /** As text, the marker goes to one stream whole and leaves the mode alone. */
  lemma MarkerAsText(w: Wiring, inThinking: bool)
    ensures var r := Split(w, inThinking, RETRY);
            r.inThinking == inThinking && |r.main| + |r.thinking| == |RETRY| > 0
  {
    MarkerHasNoSentinel();
    PlainTextIsMain(RETRY);
    PlainTextIsThinking(RETRY);
  }

  /** `v'` shows no more than the text routed as `r` would have added to `v`; strictly less in the
      buffer or in the thinking stream if `lost`. */
  ghost predicate AtMost(v: View, r: Routed, v': View, lost: bool) {
    && v'.inThinking == r.inThinking
    && |v'.buffer| <= |v.buffer| + |r.main| && |v'.thinking| <= |v.thinking| + |r.thinking|
    && (lost ==> |v'.buffer| + |v'.thinking| < |v.buffer| + |r.main| + |v.thinking| + |r.thinking|)
  }

  lemma WriteShowsAtMost(w: Wiring, v: View, r: Routed, v1: View, s: string, lost: bool)
    requires AtMost(v, r, v1, lost)
    ensures AtMost(v, Then(r, Split(w, r.inThinking, s)), Wrote(w, v1, s), lost || s == RETRY)
  {
    if s == RETRY {
      MarkerAsText(w, r.inThinking);
    }
  }

  /** Every write shows at most what its text routed as one piece would, and a retry marker less. */
  lemma {:induction false} WritesShowAtMost(w: Wiring, v: View, chunks: seq<string>)
    ensures AtMost(v, Split(w, v.inThinking, Concat(chunks)), WroteAll(w, v, chunks), RETRY in chunks)
    decreases |chunks|
  {
    if chunks != [] {
      var n := |chunks| - 1;
      var r := Split(w, v.inThinking, Concat(chunks[..n]));
      WritesShowAtMost(w, v, chunks[..n]);
      WriteShowsAtMost(w, v, r, WroteAll(w, v, chunks[..n]), chunks[n], RETRY in chunks[..n]);
      SplitConcat(w, v.inThinking, Concat(chunks[..n]), chunks[n]);
      assert chunks == chunks[..n] + [chunks[n]];
    }
  }

  /** Two cuttings of the same text, one without a write that is a retry marker: they show the same
      exactly when the other has none either. */
  lemma CuttingsAgreeIff(w: Wiring, v: View, a: seq<string>, b: seq<string>)
    requires RETRY !in b && Concat(a) == Concat(b)
    ensures WroteAll(w, v, a) == WroteAll(w, v, b) <==> RETRY !in a
  {
    WritesFollowTheText(w, v, b);
    if RETRY in a {
      WritesShowAtMost(w, v, a);
    } else {
      WritesFollowTheText(w, v, a);
    }
  }
}
