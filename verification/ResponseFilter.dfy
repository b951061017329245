/**
 The filter that removes tool output blocks from a response: a block starts at a header line and runs
 up to and including the next blank line.
 */
module ResponseFilter {
  import opened Common
  import opened Text

  const HEADERS := ["Verified Status:", "Actionable Commands:", "**Verified Status",
                    "**Actionable Commands", "System Status:", "Tool Execution"]

  predicate StartsBlock(trimmed: string) {
    exists i :: 0 <= i < |HEADERS| && HEADERS[i] <= trimmed
  }

  predicate IsHeader(line: string) { StartsBlock(TrimSpace(line)) }

  predicate IsBlank(line: string) { TrimSpace(line) == "" }

  /** Among the first `n` lines a block is open: a header with no blank line after it. */
  ghost predicate Skipping(lines: seq<string>, n: nat)
    requires n <= |lines|
  {
    exists j :: 0 <= j < n && IsHeader(lines[j]) && forall k :: j < k < n ==> !IsBlank(lines[k])
  }

  /** A header at or before `i` with no blank line strictly in between. */
  ghost predicate Dropped(lines: seq<string>, i: nat)
    requires i < |lines|
  {
    IsHeader(lines[i]) || Skipping(lines, i)
  }

  /** A header begins, after white space, with one of six phrases. */
  lemma HeadersAre(line: string)
    ensures var t := TrimSpace(line);
            IsHeader(line) <==>
            || "Verified Status:" <= t || "Actionable Commands:" <= t || "**Verified Status" <= t
            || "**Actionable Commands" <= t || "System Status:" <= t || "Tool Execution" <= t
  {
    var t := TrimSpace(line);
    assert (HEADERS[0] <= t || HEADERS[1] <= t || HEADERS[2] <= t || HEADERS[3] <= t || HEADERS[4] <= t
            || HEADERS[5] <= t) ==> IsHeader(line);
  }

  predicate IsWhite(line: string) { forall i :: 0 <= i < |line| ==> IsSpace(line[i]) }

  /** A blank line is white space throughout. */
  lemma BlankIff(line: string)
    ensures IsBlank(line) <==> IsWhite(line)
  {
    var lo, hi := TrimIsSlice(line, IsSpace);
    if lo < hi {
      assert line[lo..hi][0] == line[lo];
    }
  }

  /** A header at `j` drops line `i`: no line of white space stands strictly between the two. */
  ghost predicate Reaches(lines: seq<string>, j: nat, i: nat)
    requires i < |lines|
  {
    j <= i && IsHeader(lines[j]) && forall k :: j < k < i ==> !IsWhite(lines[k])
  }

  /** A line is dropped exactly when some header reaches it. */
  lemma DroppedIff(lines: seq<string>, i: nat)
    requires i < |lines|
    ensures Dropped(lines, i) <==> exists j: nat :: Reaches(lines, j, i)
  {
    forall k | 0 <= k < |lines|
      ensures IsBlank(lines[k]) <==> IsWhite(lines[k])
    {
      BlankIff(lines[k]);
    }
    if IsHeader(lines[i]) {
      assert Reaches(lines, i, i);
    } else if Skipping(lines, i) {
      var j :| 0 <= j < i && IsHeader(lines[j]) && forall k :: j < k < i ==> !IsBlank(lines[k]);
      assert Reaches(lines, j, i);
    }
    if j: nat :| Reaches(lines, j, i) {
      assert j == i || (j < i && IsHeader(lines[j]) && forall k :: j < k < i ==> !IsBlank(lines[k]));
    }
  }

  lemma SkippingStep(lines: seq<string>, i: nat)
    requires i < |lines|
    ensures Skipping(lines, i + 1) <==> IsHeader(lines[i]) || (Skipping(lines, i) && !IsBlank(lines[i]))
  {
  }

  /** The first `n` lines without the dropped ones. */
  ghost function Kept(lines: seq<string>, n: nat): seq<string>
    requires n <= |lines|
  {
    if n == 0 then [] else Kept(lines, n - 1) + (if Dropped(lines, n - 1) then [] else [lines[n - 1]])
  }

  ghost function Strip(response: string): string {
    TrimSpace(Join(Kept(Lines(response), |Lines(response)|)))
  }

  method StripToolOutputPatterns(response: string) returns (r: string)
    ensures r == Strip(response)
  {
    var lines := Lines(response);
    var result: seq<string> := [];
    var skipUntilEmptyLine := false;
    for i := 0 to |lines|
      invariant result == Kept(lines, i)
      invariant skipUntilEmptyLine <==> Skipping(lines, i)
    {
      SkippingStep(lines, i);
      var trimmed := TrimSpace(lines[i]);
      if StartsBlock(trimmed) {
        skipUntilEmptyLine := true;
      } else if skipUntilEmptyLine && trimmed == "" {
        skipUntilEmptyLine := false;
      } else if !skipUntilEmptyLine {
        result := result + [lines[i]];
      }
    }
    return TrimSpace(Join(result));
  }

  ghost predicate NoHeaders(s: string) {
    forall i :: 0 <= i < |Lines(s)| ==> !IsHeader(Lines(s)[i])
  }

  /** The positions below `n` of the lines that are not dropped. */
  ghost function KeptAt(lines: seq<string>, n: nat): set<nat>
    requires n <= |lines|
  {
    set p: nat | p < n && !Dropped(lines, p)
  }

  lemma KeptAdvances(lines: seq<string>, n: nat)
    requires n < |lines|
    ensures Advances(lines, n, KeptAt(lines, n), Kept(lines, n), KeptAt(lines, n + 1), Kept(lines, n + 1))
  {
    assert KeptAt(lines, n + 1) == KeptAt(lines, n) + if Dropped(lines, n) then {} else {n};
  }

  lemma NothingPicked(lines: seq<string>)
    ensures ArePicked(lines, KeptAt(lines, 0), [], Kept(lines, 0))
  {
  }

  /** The kept lines are exactly those not dropped, in the order of the response. */
  lemma {:induction false} KeptArePicked(lines: seq<string>, n: nat) returns (picks: seq<nat>)
    requires n <= |lines|
    ensures ArePicked(lines, KeptAt(lines, n), picks, Kept(lines, n))
  {
    if n == 0 {
      NothingPicked(lines);
      picks := [];
    } else {
      var before := KeptArePicked(lines, n - 1);
      KeptAdvances(lines, n - 1);
      picks := PickStep(lines, n - 1, KeptAt(lines, n - 1), before, Kept(lines, n - 1),
                        KeptAt(lines, n), Kept(lines, n));
    }
  }

  /** Kept lines are lines of the response and none is a header. */
  lemma KeptHaveNoHeaders(lines: seq<string>, n: nat)
    requires n <= |lines|
    ensures forall line :: line in Kept(lines, n) ==> line in lines && !IsHeader(line)
  {
    var picks := KeptArePicked(lines, n);
    var kept := Kept(lines, n);
    forall i | 0 <= i < |kept|
      ensures kept[i] in lines && !IsHeader(kept[i])
    {
      assert picks[i] in picks && picks[i] in KeptAt(lines, n);
    }
  }

  lemma EmptyIsNoHeader()
    ensures !IsHeader("")
  {
    assert TrimSpace("") == "";
  }

  lemma JoinedKeptHasNoHeaders(response: string)
    ensures NoHeaders(Join(Kept(Lines(response), |Lines(response)|)))
  {
    var lines := Lines(response);
    var kept := Kept(lines, |lines|);
    KeptHaveNoHeaders(lines, |lines|);
    forall i | 0 <= i < |kept|
      ensures '\n' !in kept[i] && !IsHeader(kept[i])
    {
      LinesHoldNoBreak(response);
      assert kept[i] in kept;
    }
    if kept == [] {
      EmptyIsNoHeader();
      assert Lines("") == [""];
    } else {
      LinesOfJoin(kept);
    }
  }

  lemma DropFirstSpace(s: string)
    requires NoHeaders(s) && s != "" && IsSpace(s[0])
    ensures NoHeaders(s[1..])
  {
    var rest := Lines(s[1..]);
    forall i | 0 <= i < |rest|
      ensures !IsHeader(rest[i])
    {
      if s[0] == '\n' {
        assert Lines(s)[i + 1] == rest[i];
      } else if i == 0 {
        assert Lines(s)[0] == [s[0]] + rest[0] && Lines(s)[0][1..] == rest[0];
      } else {
        assert Lines(s)[i] == rest[i];
      }
    }
  }

  lemma DropLastSpace(s: string, c: char)
    requires NoHeaders(s + [c]) && IsSpace(c)
    ensures NoHeaders(s)
  {
    var lines := Lines(s);
    var n := |lines| - 1;
    LinesSnoc(s, c);
    forall i | 0 <= i <= n
      ensures !IsHeader(lines[i])
    {
      if i == n && c != '\n' {
        TrimSnoc(lines[n], c, IsSpace);
        assert Lines(s + [c])[n] == lines[n] + [c];
      } else {
        assert Lines(s + [c])[i] == lines[i];
      }
    }
  }

  lemma {:induction false} TrimLeftKeepsNoHeaders(s: string)
    requires NoHeaders(s)
    ensures NoHeaders(TrimLeft(s, IsSpace))
    decreases |s|
  {
    if s != "" && IsSpace(s[0]) {
      DropFirstSpace(s);
      TrimLeftKeepsNoHeaders(s[1..]);
    }
  }

  lemma {:induction false} TrimRightKeepsNoHeaders(s: string)
    requires NoHeaders(s)
    ensures NoHeaders(TrimRight(s, IsSpace))
    decreases |s|
  {
    if s != "" && IsSpace(s[|s| - 1]) {
      var t := s[..|s| - 1];
      assert s == t + [s[|s| - 1]];
      DropLastSpace(t, s[|s| - 1]);
      TrimRightKeepsNoHeaders(t);
    }
  }

  /** No line of the output starts a block. */
  lemma StripLeavesNoHeaders(response: string)
    ensures NoHeaders(Strip(response))
  {
    JoinedKeptHasNoHeaders(response);
    var joined := Join(Kept(Lines(response), |Lines(response)|));
    TrimLeftKeepsNoHeaders(joined);
    TrimRightKeepsNoHeaders(TrimLeft(joined, IsSpace));
  }

  lemma {:induction false} NothingDropped(lines: seq<string>, n: nat)
    requires n <= |lines| && forall i :: 0 <= i < |lines| ==> !IsHeader(lines[i])
    ensures Kept(lines, n) == lines[..n]
  {
    if n > 0 {
      NothingDropped(lines, n - 1);
    }
  }

  /** A text without headers is only trimmed. */
  lemma StripWithoutHeaders(s: string)
    requires NoHeaders(s)
    ensures Strip(s) == TrimSpace(s)
  {
    var lines := Lines(s);
    NothingDropped(lines, |lines|);
    assert lines[..|lines|] == lines;
    JoinOfLines(s);
  }

  /** Filtering twice is filtering once. */
  lemma StripIsIdempotent(response: string)
    ensures Strip(Strip(response)) == Strip(response)
  {
    StripLeavesNoHeaders(response);
    StripWithoutHeaders(Strip(response));
    TrimIsIdempotent(Join(Kept(Lines(response), |Lines(response)|)), IsSpace);
  }
}
