/**
 The glob compiler of the approval matcher: a byte loop that writes RE2 syntax.  RE2 is given by a
 parser and a matching relation for the fragment the compiler can produce, globs by their own direct
 semantics, and compiling is shown to preserve meaning.
 */
module GlobRegex {
  import opened Common
  import opened Utf8

  // ---------------------------------------------------------------------------------------------
  // Globs
  // ---------------------------------------------------------------------------------------------

  predicate DoubleStar(g: string) { |g| >= 2 && g[0] == '*' && g[1] == '*' }

  /** `**` is any run without a newline, `*` any run without a slash, `?` one character other than a
      slash, and everything else stands for itself. */
  ghost predicate GlobMatch(g: string, t: string)
    decreases |g|
  {
    if g == "" then t == ""
    else if DoubleStar(g) then
      exists k :: 0 <= k <= |t| && '\n' !in t[..k] && GlobMatch(g[2..], t[k..])
    else if g[0] == '*' then
      exists k :: 0 <= k <= |t| && '/' !in t[..k] && GlobMatch(g[1..], t[k..])
    else
      && t != ""
      && (if g[0] == '?' then t[0] != '/' else t[0] == g[0])
      && GlobMatch(g[1..], t[1..])
  }

  // ---------------------------------------------------------------------------------------------
  // RE2
  // ---------------------------------------------------------------------------------------------

  /** The fragment: anchors, `.`, `[^/]`, literals and the star of one of these. */
  datatype Item = Begin | End | Any | NotSlash | Lit(c: char) | Star(of: Item)

  predicate IsAlnum(c: char) { '0' <= c <= '9' || 'A' <= c <= 'Z' || 'a' <= c <= 'z' }

  /** Characters that RE2 reads as operators where an atom may begin. */
  const OPERATORS := ['*', '+', '?', '(', ')', '|', '{']

  /** The atom at the front of a non-empty expression and its length.  A backslash makes a literal
      of ASCII punctuation only; operators and other classes are outside the fragment. */
  function ParseAtom(s: string): (r: Option<(Item, nat)>)
    requires s != ""
    ensures r.Some? ==> 1 <= r.value.1 <= |s|
  {
    if s[0] == '^' then Some((Begin, 1))
    else if s[0] == '$' then Some((End, 1))
    else if s[0] == '.' then Some((Any, 1))
    else if s[0] == '[' then if "[^/]" <= s then Some((NotSlash, 4)) else None
    else if s[0] == '\\' then
      if |s| >= 2 && IsAscii(s[1]) && !IsAlnum(s[1]) then Some((Lit(s[1]), 2)) else None
    else if s[0] in OPERATORS then None
    else Some((Lit(s[0]), 1))
  }

  function Parse(s: string): Option<seq<Item>>
    decreases |s|
  {
    if s == "" then Some([])
    else match ParseAtom(s)
      case None => None
      case Some((atom, n)) =>
        var starred := n < |s| && s[n] == '*';
        if starred && (atom.Begin? || atom.End?) then None
        else match Parse(s[if starred then n + 1 else n..])
          case None => None
          case Some(rest) => Some([if starred then Star(atom) else atom] + rest)
  }

  /** `it` matches `t` from position `i` to position `j`. */
  ghost predicate Matches(it: Item, t: string, i: nat, j: nat)
    requires i <= j <= |t|
    decreases it, j - i
  {
    match it
    case Begin => i == j == 0
    case End => i == j == |t|
    case Any => j == i + 1 && t[i] != '\n'
    case NotSlash => j == i + 1 && t[i] != '/'
    case Lit(c) => j == i + 1 && t[i] == c
    case Star(of) =>
      i == j || exists k :: i < k <= j && Matches(of, t, i, k) && Matches(it, t, k, j)
  }

  ghost predicate MatchesSeq(re: seq<Item>, t: string, i: nat, j: nat)
    requires i <= j <= |t|
    decreases |re|
  {
    if re == [] then i == j
    else exists k :: i <= k <= j && Matches(re[0], t, i, k) && MatchesSeq(re[1..], t, k, j)
  }

  /** `regexp.MatchString`: an unanchored search. */
  ghost predicate MatchString(re: seq<Item>, t: string) {
    exists i: nat, j: nat :: i <= j <= |t| && MatchesSeq(re, t, i, j)
  }

  // ---------------------------------------------------------------------------------------------
  // The compiler
  // ---------------------------------------------------------------------------------------------

  const ESCAPED := ['+', '^', '$', '(', ')', '[', ']', '{', '}', '|', '\\']

  /** What the loop writes for one plain character. */
  function EmitChar(c: char): string {
    if c == '?' then "[^/]" else if c == '.' || c in ESCAPED then ['\\', c] else [c]
  }

  /** How many characters of the glob the loop takes at once. */
  function Width(g: string): (n: nat)
    requires g != ""
    ensures 1 <= n <= |g|
  {
    if DoubleStar(g) then 2 else 1
  }

  /** What the loop writes for the front of a glob. */
  function Piece(g: string): string
    requires g != ""
  {
    if DoubleStar(g) then ".*" else if g[0] == '*' then "[^/]*" else EmitChar(g[0])
  }

  function Emit(g: string): string
    decreases |g|
  {
    if g == "" then "" else Piece(g) + Emit(g[Width(g)..])
  }

  /** The item the front of a glob stands for. */
  function FrontItem(g: string): Item
    requires g != ""
  {
    if DoubleStar(g) then Star(Any)
    else if g[0] == '*' then Star(NotSlash)
    else if g[0] == '?' then NotSlash
    else Lit(g[0])
  }

  /** The expression a glob should compile to. */
  function Items(g: string): seq<Item>
    decreases |g|
  {
    if g == "" then [] else [FrontItem(g)] + Items(g[Width(g)..])
  }

  lemma EmitStep(before: string, g: string, i: nat)
    requires i < |g|
    ensures var n := Width(g[i..]); var piece := Piece(g[i..]);
            i + n <= |g| && before + Emit(g[i..]) == (before + piece) + Emit(g[i + n..])
  {
    var n := Width(g[i..]);
    assert g[i..][n..] == g[i + n..];
    Concat3(before, Piece(g[i..]), Emit(g[i + n..]));
  }

  /** The front of what is left, in terms of the whole glob. */
  lemma FrontAt(g: string, i: nat)
    requires i < |g|
    ensures var double := i + 1 < |g| && g[i] == '*' && g[i + 1] == '*';
            && Width(g[i..]) == (if double then 2 else 1)
            && Piece(g[i..]) == if double then ".*" else if g[i] == '*' then "[^/]*" else EmitChar(g[i])
  {
    assert DoubleStar(g[i..]) <==> i + 1 < |g| && g[i] == '*' && g[i + 1] == '*';
    assert g[i..][0] == g[i];
  }

  /** The switch on the byte at `i`, with the lookahead for a second star. */
  method PieceAt(glob: seq<byte>, i: nat) returns (piece: string, width: nat)
    requires i < |glob|
    ensures width == Width(Latin(glob)[i..]) && piece == Piece(Latin(glob)[i..])
  {
    FrontAt(Latin(glob), i);
    var c := RuneOf(glob[i]);
    width := 1;
    if c == '*' {
      if i + 1 < |glob| && RuneOf(glob[i + 1]) == '*' {
        piece := ".*";
        width := 2;
      } else {
        piece := "[^/]*";
      }
    } else if c == '?' {
      piece := "[^/]";
    } else if c == '.' {
      piece := "\\.";
    } else if c in ESCAPED {
      piece := ['\\', c];
    } else {
      piece := [c];
    }
  }

  /** The loop, without the anchors. */
  method Translate(glob: seq<byte>) returns (regex: string)
    ensures regex == Emit(Latin(glob))
  {
    ghost var g := Latin(glob);
    regex := "";
    var i := 0;
    while i < |glob|
      invariant 0 <= i <= |glob|
      invariant regex + Emit(g[i..]) == Emit(g)
    {
      EmitStep(regex, g, i);
      var piece, width := PieceAt(glob, i);
      regex := regex + piece;
      i := i + width;
    }
    assert g[i..] == "" && regex + "" == regex;
  }

  method GlobToRegex(glob: seq<byte>) returns (regex: string)
    ensures regex == "^" + Emit(Latin(glob)) + "$"
    ensures Parse(regex) == Some([Begin] + Items(Latin(glob)) + [End])
    ensures forall t :: MatchString([Begin] + Items(Latin(glob)) + [End], t) <==> GlobMatch(Latin(glob), t)
  {
    regex := Translate(glob);
    CompiledParses(Latin(glob));
    forall t
      ensures MatchString([Begin] + Items(Latin(glob)) + [End], t) <==> GlobMatch(Latin(glob), t)
    {
      CompiledMatches(Latin(glob), t);
    }
    regex := "^" + regex + "$";
  }

  // ---------------------------------------------------------------------------------------------
  // No glob character is read as an operator
  // ---------------------------------------------------------------------------------------------

  lemma EmitNeverStarts(g: string, rest: string)
    requires rest == "" || rest[0] != '*'
    ensures Emit(g) + rest == "" || (Emit(g) + rest)[0] != '*'
  {
  }

  lemma EmitCharIsAtom(c: char, rest: string)
    requires c != '*'
    ensures ParseAtom(EmitChar(c) + rest) ==
            Some((if c == '?' then NotSlash else Lit(c), |EmitChar(c)|))
  {
    var s := EmitChar(c) + rest;
    if c == '?' {
      assert s[..4] == "[^/]";
    } else if c == '.' || c in ESCAPED {
      assert s[0] == '\\' && s[1] == c;
    } else {
      assert s[0] == c;
    }
  }

  /** Each plain character reads back as one atom. */
  lemma EmitCharParses(c: char, rest: string)
    requires c != '*' && (rest == "" || rest[0] != '*') && Parse(rest).Some?
    ensures Parse(EmitChar(c) + rest) ==
            Some([if c == '?' then NotSlash else Lit(c)] + Parse(rest).value)
  {
    EmitCharIsAtom(c, rest);
    assert (EmitChar(c) + rest)[|EmitChar(c)|..] == rest;
  }

  lemma StarParses(atom: string, it: Item, rest: string)
    requires (atom == "." && it == Any) || (atom == "[^/]" && it == NotSlash)
    requires Parse(rest).Some?
    ensures Parse(atom + "*" + rest) == Some([Star(it)] + Parse(rest).value)
  {
    var s := atom + "*" + rest;
    var n := |atom|;
    assert s[n + 1..] == rest && s[n] == '*' && s[..n] == atom;
    assert ParseAtom(s) == Some((it, n));
  }

  lemma {:induction false} EmitParses(g: string, rest: string)
    requires (rest == "" || rest[0] != '*') && Parse(rest).Some?
    ensures Parse(Emit(g) + rest) == Some(Items(g) + Parse(rest).value)
    decreases |g|
  {
    if g == "" {
      assert Emit(g) + rest == rest;
      assert Items(g) + Parse(rest).value == Parse(rest).value;
    } else {
      var tail := g[Width(g)..];
      EmitParses(tail, rest);
      EmitNeverStarts(tail, rest);
      PieceParses(g, Emit(tail) + rest);
      Concat3(Piece(g), Emit(tail), rest);
      Concat3([FrontItem(g)], Items(tail), Parse(rest).value);
    }
  }

  lemma Concat3<T>(a: seq<T>, b: seq<T>, c: seq<T>)
    ensures (a + b) + c == a + (b + c)
  {
  }

  lemma PieceParses(g: string, rest: string)
    requires g != "" && (rest == "" || rest[0] != '*') && Parse(rest).Some?
    ensures Parse(Piece(g) + rest) == Some([FrontItem(g)] + Parse(rest).value)
  {
    if DoubleStar(g) {
      StarParses(".", Any, rest);
      assert ".*" == "." + "*";
    } else if g[0] == '*' {
      StarParses("[^/]", NotSlash, rest);
      assert "[^/]*" == "[^/]" + "*";
    } else {
      EmitCharParses(g[0], rest);
    }
  }

  /** The compiled string is an anchored expression whose items are those of the glob. */
  lemma CompiledParses(g: string)
    ensures Parse("^" + Emit(g) + "$") == Some([Begin] + Items(g) + [End])
  {
    DollarParses();
    EmitParses(g, "$");
    EmitNeverStarts(g, "$");
    CaretParses(Emit(g) + "$");
    assert "^" + Emit(g) + "$" == "^" + (Emit(g) + "$");
    assert [Begin] + Items(g) + [End] == [Begin] + (Items(g) + [End]);
  }

  lemma DollarParses()
    ensures Parse("$") == Some([End])
  {
    assert ParseAtom("$") == Some((End, 1));
    assert "$"[1..] == "" && Parse("") == Some([]);
    assert [End] + [] == [End];
  }

  lemma CaretParses(s: string)
    requires Parse(s).Some? && (s == "" || s[0] != '*')
    ensures Parse("^" + s) == Some([Begin] + Parse(s).value)
  {
    assert ("^" + s)[1..] == s;
  }

  // ---------------------------------------------------------------------------------------------
  // Compiling preserves meaning
  // ---------------------------------------------------------------------------------------------

  /** The star of a one-character class is a run of that class. */
  lemma {:induction false} StarIsRun(it: Item, bad: char, t: string, i: nat, j: nat)
    requires i <= j <= |t| && ((it == Any && bad == '\n') || (it == NotSlash && bad == '/'))
    ensures Matches(Star(it), t, i, j) <==> bad !in t[i..j]
    decreases j - i
  {
    if i < j {
      StarIsRun(it, bad, t, i + 1, j);
      assert t[i..j] == [t[i]] + t[i + 1..j];
      if t[i] != bad && bad !in t[i + 1..j] {
        assert Matches(it, t, i, i + 1);
      }
    }
  }

  /** Matching to the end of the text follows the glob. */
  lemma {:induction false} ItemsMatchGlob(g: string, t: string, i: nat)
    requires i <= |t|
    ensures MatchesSeq(Items(g), t, i, |t|) <==> GlobMatch(g, t[i..])
    decreases |g|
  {
    if g == "" {
    } else if DoubleStar(g) {
      RunMatchesGlob(g, 2, Any, '\n', t, i);
    } else if g[0] == '*' {
      RunMatchesGlob(g, 1, NotSlash, '/', t, i);
    } else {
      var it := if g[0] == '?' then NotSlash else Lit(g[0]);
      assert Items(g)[0] == it && Items(g)[1..] == Items(g[1..]);
      if i < |t| {
        ItemsMatchGlob(g[1..], t, i + 1);
        assert t[i..][1..] == t[i + 1..];
        if GlobMatch(g, t[i..]) {
          assert Matches(it, t, i, i + 1);
        }
      }
    }
  }

  /** `g` begins with the star that takes `n` characters, stands for a run of `it` and stops at `bad`. */
  predicate IsStar(g: string, n: nat, it: Item, bad: char) {
    && n <= |g|
    && if n == 2 then DoubleStar(g) && it == Any && bad == '\n'
       else n == 1 && !DoubleStar(g) && g[0] == '*' && it == NotSlash && bad == '/'
  }

  lemma GlobOfStar(g: string, n: nat, it: Item, bad: char, u: string)
    requires IsStar(g, n, it, bad)
    ensures GlobMatch(g, u) <==> exists k :: 0 <= k <= |u| && bad !in u[..k] && GlobMatch(g[n..], u[k..])
  {
  }

  lemma MatchesFirst(re: seq<Item>, it: Item, rest: seq<Item>, t: string, i: nat, j: nat)
    requires re == [it] + rest && i <= j <= |t|
    ensures MatchesSeq(re, t, i, j) <==> exists k :: i <= k <= j && Matches(it, t, i, k) && MatchesSeq(rest, t, k, j)
  {
    assert re[0] == it && re[1..] == rest;
    if MatchesSeq(re, t, i, j) {
      var k :| i <= k <= j && Matches(re[0], t, i, k) && MatchesSeq(re[1..], t, k, j);
      assert Matches(it, t, i, k) && MatchesSeq(rest, t, k, j);
    }
    if k :| i <= k <= j && Matches(it, t, i, k) && MatchesSeq(rest, t, k, j) {
      assert Matches(re[0], t, i, k) && MatchesSeq(re[1..], t, k, j);
    }
  }

  lemma ItemsOfStar(g: string, n: nat, it: Item, bad: char, t: string, i: nat)
    requires IsStar(g, n, it, bad) && i <= |t|
    ensures MatchesSeq(Items(g), t, i, |t|) <==>
            exists k :: i <= k <= |t| && Matches(Star(it), t, i, k) && MatchesSeq(Items(g[n..]), t, k, |t|)
  {
    assert Items(g) == [Star(it)] + Items(g[n..]);
    MatchesFirst(Items(g), Star(it), Items(g[n..]), t, i, |t|);
  }

  lemma {:induction false} RunMatchesGlob(g: string, n: nat, it: Item, bad: char, t: string, i: nat)
    requires i <= |t| && IsStar(g, n, it, bad)
    ensures MatchesSeq(Items(g), t, i, |t|) <==> GlobMatch(g, t[i..])
    decreases |g|, 0
  {
    var u := t[i..];
    GlobOfStar(g, n, it, bad, u);
    ItemsOfStar(g, n, it, bad, t, i);
    forall k | i <= k <= |t|
      ensures Matches(Star(it), t, i, k) <==> bad !in u[..k - i]
      ensures MatchesSeq(Items(g[n..]), t, k, |t|) <==> GlobMatch(g[n..], u[k - i..])
    {
      StarIsRun(it, bad, t, i, k);
      assert t[i..k] == u[..k - i] && t[k..] == u[k - i..];
      ItemsMatchGlob(g[n..], t, k);
    }
    if GlobMatch(g, u) {
      var k :| 0 <= k <= |u| && bad !in u[..k] && GlobMatch(g[n..], u[k..]);
      assert i <= i + k <= |t| && Matches(Star(it), t, i, i + k);
    }
  }

  lemma {:induction false} EndAnchors(re: seq<Item>, t: string, i: nat, j: nat)
    requires i <= j <= |t|
    ensures MatchesSeq(re + [End], t, i, j) <==> j == |t| && MatchesSeq(re, t, i, |t|)
    decreases |re|
  {
    var all := re + [End];
    if re == [] {
      assert all[0] == End && all[1..] == [];
    } else {
      assert all[0] == re[0] && all[1..] == re[1..] + [End];
      forall k | i <= k <= j
        ensures MatchesSeq(all[1..], t, k, j) <==> j == |t| && MatchesSeq(re[1..], t, k, |t|)
      {
        EndAnchors(re[1..], t, k, j);
      }
    }
  }

  /** For every text, the compiled expression matches exactly when the glob does. */
  lemma CompiledMatches(g: string, t: string)
    ensures MatchString([Begin] + Items(g) + [End], t) <==> GlobMatch(g, t)
  {
    var inner := Items(g) + [End];
    var re := [Begin] + Items(g) + [End];
    assert re[0] == Begin && re[1..] == inner;
    ItemsMatchGlob(g, t, 0);
    assert t[0..] == t;
    if GlobMatch(g, t) {
      EndAnchors(Items(g), t, 0, |t|);
      assert Matches(Begin, t, 0, 0) && MatchesSeq(inner, t, 0, |t|);
      assert MatchesSeq(re, t, 0, |t|);
    }
    if MatchString(re, t) {
      var i: nat, j: nat :| i <= j <= |t| && MatchesSeq(re, t, i, j);
      var k :| i <= k <= j && Matches(Begin, t, i, k) && MatchesSeq(inner, t, k, j);
      EndAnchors(Items(g), t, 0, j);
    }
  }

  // ---------------------------------------------------------------------------------------------
  // Globs outside ASCII
  // ---------------------------------------------------------------------------------------------

  /** A text that the glob matches: wildcards empty, `?` replaced by a letter. */
  function Instance(g: string): string
    decreases |g|
  {
    if g == "" then ""
    else if g[0] == '*' then Instance(g[1..])
    else [if g[0] == '?' then 'a' else g[0]] + Instance(g[1..])
  }

  lemma {:induction false} InstanceMatches(g: string)
    ensures GlobMatch(g, Instance(g)) && High(Instance(g)) == High(g)
    decreases |g|
  {
    if g != "" {
      InstanceMatches(g[1..]);
      var t := Instance(g);
      if DoubleStar(g) {
        InstanceMatches(g[2..]);
        assert g[1..][1..] == g[2..];
        assert t[..0] == "" && t[0..] == t;
      } else if g[0] == '*' {
        assert t[..0] == "" && t[0..] == t;
      } else {
        assert t[1..] == Instance(g[1..]);
      }
    }
  }

  /** A matching text holds every literal of the glob. */
  lemma {:induction false} MatchKeepsHigh(g: string, t: string)
    requires GlobMatch(g, t)
    ensures High(g) <= High(t)
    decreases |g|
  {
    if g == "" {
    } else if g[0] == '*' {
      var n := if DoubleStar(g) then 2 else 1;
      var k :| 0 <= k <= |t| && GlobMatch(g[n..], t[k..]);
      MatchKeepsHigh(g[n..], t[k..]);
      HighConcat(t[..k], t[k..]);
      HighConcat(g[..n], g[n..]);
      assert t == t[..k] + t[k..] && g == g[..n] + g[n..];
      HighOfAscii(g[..n]);
    } else {
      MatchKeepsHigh(g[1..], t[1..]);
    }
  }

  /** The compiled expression, run on the bytes of a glob, means the glob on every text exactly when
      the glob is ASCII: from 128 up, `string(c)` turns each byte into a character of its own. */
  lemma FaithfulIffAscii(g: string)
    ensures (forall t :: MatchString([Begin] + Items(Latin(Encode(g))) + [End], t) <==> GlobMatch(g, t))
            <==> AllAscii(g)
  {
    var bytes := Latin(Encode(g));
    forall t
      ensures MatchString([Begin] + Items(bytes) + [End], t) <==> GlobMatch(bytes, t)
    {
      CompiledMatches(bytes, t);
    }
    HighOfAscii(g);
    if AllAscii(g) {
      LatinOfAscii(g);
    } else {
      InstanceMatches(g);
      LatinDoublesHigh(g);
      if GlobMatch(bytes, Instance(g)) {
        MatchKeepsHigh(bytes, Instance(g));
      }
      assert MatchString([Begin] + Items(bytes) + [End], Instance(g)) != GlobMatch(g, Instance(g));
    }
  }
}
