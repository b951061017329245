/** The parts of Go's `strings` package that the text transformers use. */
module Text {

  /** `unicode.IsSpace`. */
  predicate IsSpace(c: char) {
    var n := c as int;
    || 9 <= n <= 13 || n == 32 || n == 0x85 || n == 0xA0 || n == 0x1680 || 0x2000 <= n <= 0x200A
    || n == 0x2028 || n == 0x2029 || n == 0x202F || n == 0x205F || n == 0x3000
  }

  function TrimLeft(s: string, cut: char -> bool): string {
    if s != "" && cut(s[0]) then TrimLeft(s[1..], cut) else s
  }

  function TrimRight(s: string, cut: char -> bool): string {
    if s != "" && cut(s[|s| - 1]) then TrimRight(s[..|s| - 1], cut) else s
  }

  function Trim(s: string, cut: char -> bool): string { TrimRight(TrimLeft(s, cut), cut) }

  function TrimSpace(s: string): string { Trim(s, IsSpace) }

  /** Nothing to cut at either end. */
  predicate IsTrimmed(s: string, cut: char -> bool) {
    s == "" || (!cut(s[0]) && !cut(s[|s| - 1]))
  }

  lemma {:induction false} TrimRightIsPrefix(s: string, cut: char -> bool) returns (n: nat)
    ensures n <= |s| && TrimRight(s, cut) == s[..n]
    ensures n == 0 || !cut(s[n - 1])
    ensures forall i :: n <= i < |s| ==> cut(s[i])
    decreases |s|
  {
    if s != "" && cut(s[|s| - 1]) {
      n := TrimRightIsPrefix(s[..|s| - 1], cut);
    } else {
      n := |s|;
    }
  }

  lemma {:induction false} TrimLeftIsSuffix(s: string, cut: char -> bool) returns (n: nat)
    ensures n <= |s| && TrimLeft(s, cut) == s[n..]
    ensures n == |s| || !cut(s[n])
    ensures forall i :: 0 <= i < n ==> cut(s[i])
    decreases |s|
  {
    if s != "" && cut(s[0]) {
      var m := TrimLeftIsSuffix(s[1..], cut);
      n := m + 1;
      assert forall i :: 1 <= i < n ==> s[i] == s[1..][i - 1];
    } else {
      n := 0;
    }
  }

  /** Trim returns a piece of the text whose ends are not cut, and what it drops is. */
  lemma TrimIsSlice(s: string, cut: char -> bool) returns (lo: nat, hi: nat)
    ensures lo <= hi <= |s| && Trim(s, cut) == s[lo..hi]
    ensures IsTrimmed(Trim(s, cut), cut)
    ensures forall i :: 0 <= i < lo || hi <= i < |s| ==> cut(s[i])
  {
    lo := TrimLeftIsSuffix(s, cut);
    var n := TrimRightIsPrefix(s[lo..], cut);
    hi := lo + n;
    assert forall i :: hi <= i < |s| ==> s[i] == s[lo..][i - lo];
    assert n > 0 ==> !cut(s[lo..][n - 1]);
  }

  lemma TrimmedStays(s: string, cut: char -> bool)
    requires IsTrimmed(s, cut)
    ensures Trim(s, cut) == s
  {
  }

  lemma TrimIsIdempotent(s: string, cut: char -> bool)
    ensures Trim(Trim(s, cut), cut) == Trim(s, cut)
  {
    var lo, hi := TrimIsSlice(s, cut);
    TrimmedStays(Trim(s, cut), cut);
  }

  lemma {:induction false} TrimLeftSnoc(s: string, c: char, cut: char -> bool)
    requires cut(c)
    ensures TrimLeft(s + [c], cut) == if TrimLeft(s, cut) == "" then "" else TrimLeft(s, cut) + [c]
    decreases |s|
  {
    if s == "" {
      assert s + [c] == [c] && [c][1..] == "";
    } else if cut(s[0]) {
      assert (s + [c])[1..] == s[1..] + [c];
      TrimLeftSnoc(s[1..], c, cut);
    }
  }

  /** One more character to cut at the end makes no difference. */
  lemma TrimSnoc(s: string, c: char, cut: char -> bool)
    requires cut(c)
    ensures Trim(s + [c], cut) == Trim(s, cut)
  {
    TrimLeftSnoc(s, c, cut);
    var t := TrimLeft(s, cut);
    assert t != "" ==> (t + [c])[..|t|] == t;
  }

  // ---------------------------------------------------------------------------------------------
  // Words
  // ---------------------------------------------------------------------------------------------

  /** The words of a text: its maximal runs of characters that do not separate. */
  function Words(s: string, sep: char -> bool): (words: seq<string>)
    ensures s != "" && !sep(s[0]) ==> words != []
  {
    if s == "" then []
    else
      var rest := Words(s[1..], sep);
      if sep(s[0]) then rest
      else if |s| == 1 || sep(s[1]) then [[s[0]]] + rest
      else [[s[0]] + rest[0]] + rest[1..]
  }

  lemma {:induction false} WordsSnoc(s: string, c: char, sep: char -> bool)
    requires sep(c)
    ensures Words(s + [c], sep) == Words(s, sep)
  {
    if s != "" {
      assert (s + [c])[1..] == s[1..] + [c];
      WordsSnoc(s[1..], c, sep);
    }
  }

  lemma {:induction false} TrimLeftKeepsWords(s: string, sep: char -> bool)
    ensures Words(TrimLeft(s, sep), sep) == Words(s, sep)
  {
    if s != "" && sep(s[0]) {
      TrimLeftKeepsWords(s[1..], sep);
    }
  }

  lemma {:induction false} TrimRightKeepsWords(s: string, sep: char -> bool)
    ensures Words(TrimRight(s, sep), sep) == Words(s, sep)
    decreases |s|
  {
    if s != "" && sep(s[|s| - 1]) {
      var t := s[..|s| - 1];
      assert s == t + [s[|s| - 1]];
      WordsSnoc(t, s[|s| - 1], sep);
      TrimRightKeepsWords(t, sep);
    }
  }

  /** Trimming separators changes no word. */
  lemma TrimKeepsWords(s: string, sep: char -> bool)
    ensures Words(Trim(s, sep), sep) == Words(s, sep)
  {
    TrimLeftKeepsWords(s, sep);
    TrimRightKeepsWords(TrimLeft(s, sep), sep);
  }

  // ---------------------------------------------------------------------------------------------
  // Lines
  // ---------------------------------------------------------------------------------------------

  /** One more character in front of, or behind, a text that is already cut into lines. */
  function InFront(c: char, lines: seq<string>): seq<string>
    requires lines != []
  {
    if c == '\n' then [""] + lines else lines[0 := [c] + lines[0]]
  }

  function Behind(lines: seq<string>, c: char): seq<string>
    requires lines != []
  {
    if c == '\n' then lines + [""] else lines[|lines| - 1 := lines[|lines| - 1] + [c]]
  }

  /** `strings.Split(s, "\n")`. */
  function Lines(s: string): (lines: seq<string>)
    ensures lines != []
  {
    if s == "" then [""] else InFront(s[0], Lines(s[1..]))
  }

  /** `strings.Join(lines, "\n")`. */
  function Join(lines: seq<string>): string {
    if lines == [] then ""
    else if |lines| == 1 then lines[0]
    else lines[0] + "\n" + Join(lines[1..])
  }

  lemma {:induction false} JoinOfLines(s: string)
    ensures Join(Lines(s)) == s
  {
    if s != "" {
      var rest := Lines(s[1..]);
      JoinOfLines(s[1..]);
      if s[0] == '\n' {
        assert Lines(s)[1..] == rest;
      } else {
        var line := [s[0]] + rest[0];
        assert Lines(s)[0] == line && Lines(s)[1..] == rest[1..];
      }
    }
  }

  lemma {:induction false} LinesHoldNoBreak(s: string)
    ensures forall i :: 0 <= i < |Lines(s)| ==> '\n' !in Lines(s)[i]
  {
    if s != "" {
      LinesHoldNoBreak(s[1..]);
    }
  }

  lemma {:induction false} LinesOfOne(line: string)
    requires '\n' !in line
    ensures Lines(line) == [line]
  {
    if line != "" {
      LinesOfOne(line[1..]);
      assert [line[0]] + line[1..] == line;
    }
  }

  lemma {:induction false} LinesOfFirst(line: string, rest: string)
    requires '\n' !in line
    ensures Lines(line + "\n" + rest) == [line] + Lines(rest)
    decreases |line|
  {
    var s := line + "\n" + rest;
    if line == "" {
      assert s[0] == '\n' && s[1..] == rest;
    } else {
      assert s[1..] == line[1..] + "\n" + rest;
      LinesOfFirst(line[1..], rest);
      assert [line[0]] + line[1..] == line;
    }
  }

  lemma {:induction false} LinesOfJoin(lines: seq<string>)
    requires lines != [] && forall i :: 0 <= i < |lines| ==> '\n' !in lines[i]
    ensures Lines(Join(lines)) == lines
  {
    if |lines| == 1 {
      LinesOfOne(lines[0]);
    } else {
      LinesOfJoin(lines[1..]);
      LinesOfFirst(lines[0], Join(lines[1..]));
    }
  }

  lemma FrontAndBehind(a: char, lines: seq<string>, c: char)
    requires lines != []
    ensures Behind(InFront(a, lines), c) == InFront(a, Behind(lines, c))
  {
    if a != '\n' && c != '\n' && |lines| == 1 {
      assert ([a] + lines[0]) + [c] == [a] + (lines[0] + [c]);
    }
  }

  lemma {:induction false} LinesSnoc(s: string, c: char)
    ensures Lines(s + [c]) == Behind(Lines(s), c)
  {
    if s == "" {
      assert s + [c] == [c] && [c][1..] == "";
      assert [c] + "" == [c] && "" + [c] == [c];
    } else {
      assert (s + [c])[1..] == s[1..] + [c];
      LinesSnoc(s[1..], c);
      FrontAndBehind(s[0], Lines(s[1..]), c);
    }
  }
}
