/**
 Two text normalisers built on the same loop, which replaces a double character by a single one until
 none is left: the loop guard's `normalizeText` and the session namer's slug.
 */
module Normalize {
  import opened Common
  import opened Text

  // ---------------------------------------------------------------------------------------------
  // The loop
  // ---------------------------------------------------------------------------------------------

  predicate Contains(s: string, sub: string) {
    exists i :: 0 <= i <= |s| && sub <= s[i..]
  }

  /** The text has the other one between some beginning and some end. */
  lemma ContainsIff(s: string, sub: string)
    ensures Contains(s, sub) <==> exists a, b :: s == a + sub + b
  {
    if Contains(s, sub) {
      var i :| 0 <= i <= |s| && sub <= s[i..];
      assert s == s[..i] + sub + s[i + |sub|..];
    }
    if a, b :| s == a + sub + b {
      assert s[|a|..] == sub + b;
    }
  }

  /** `strings.ReplaceAll`: left to right, without overlaps. */
  function ReplaceAll(s: string, sub: string, with: string): string
    requires sub != ""
    decreases |s|
  {
    if |s| < |sub| then s
    else if s[..|sub|] == sub then with + ReplaceAll(s[|sub|..], sub, with)
    else [s[0]] + ReplaceAll(s[1..], sub, with)
  }

  /** Every `c` that another `c` follows is dropped: a maximal run leaves one. */
  function Collapse(s: string, c: char): string {
    if |s| <= 1 then s
    else if s[0] == c && s[1] == c then Collapse(s[1..], c)
    else [s[0]] + Collapse(s[1..], c)
  }

  function Halve(s: string, c: char): string { ReplaceAll(s, [c, c], [c]) }

  predicate HasPair(s: string, c: char) {
    exists i :: 0 <= i < |s| - 1 && s[i] == c && s[i + 1] == c
  }

  lemma PairIsContained(s: string, c: char)
    ensures Contains(s, [c, c]) <==> HasPair(s, c)
  {
    if HasPair(s, c) {
      var i :| 0 <= i < |s| - 1 && s[i] == c && s[i + 1] == c;
      assert s[i..][..2] == [c, c];
      assert 0 <= i <= |s| && [c, c] <= s[i..];
    }
    if Contains(s, [c, c]) {
      var i :| 0 <= i <= |s| && [c, c] <= s[i..];
      assert s[i..][0] == s[i] && s[i..][1] == s[i + 1];
    }
  }

  lemma {:induction false} HalveShrinks(s: string, c: char)
    ensures |Halve(s, c)| <= |s|
    ensures HasPair(s, c) ==> |Halve(s, c)| < |s|
    ensures s != "" ==> Halve(s, c) != "" && Halve(s, c)[0] == s[0]
    decreases |s|
  {
    if |s| >= 2 {
      assert s[..2] == [s[0], s[1]];
      if s[0] == c && s[1] == c {
        HalveShrinks(s[2..], c);
      } else {
        HalveShrinks(s[1..], c);
        if HasPair(s, c) {
          var i :| 0 <= i < |s| - 1 && s[i] == c && s[i + 1] == c;
          assert s[1..][i - 1] == c && s[1..][i] == c;
        }
      }
    }
  }

  lemma CollapseFront(a: char, s: string, t: string, c: char)
    requires Collapse(s, c) == Collapse(t, c)
    requires s == "" <==> t == ""
    requires s != "" ==> s[0] == t[0]
    ensures Collapse([a] + s, c) == Collapse([a] + t, c)
  {
    assert ([a] + s)[1..] == s && ([a] + t)[1..] == t;
  }

  lemma {:induction false} HalveKeepsCollapse(s: string, c: char)
    ensures Collapse(Halve(s, c), c) == Collapse(s, c)
    decreases |s|
  {
    if |s| >= 2 {
      assert s[..2] == [s[0], s[1]];
      if s[0] == c && s[1] == c {
        HalveKeepsCollapse(s[2..], c);
        HalveShrinks(s[2..], c);
        CollapseFront(c, Halve(s[2..], c), s[2..], c);
        assert s[1..] == [c] + s[2..];
      } else {
        HalveKeepsCollapse(s[1..], c);
        HalveShrinks(s[1..], c);
        CollapseFront(s[0], Halve(s[1..], c), s[1..], c);
        assert s == [s[0]] + s[1..];
      }
    }
  }

  /** A collapsed text keeps its ends and its characters and has no pair. */
  lemma {:induction false} CollapseIsCollapsed(s: string, c: char)
    ensures !HasPair(Collapse(s, c), c)
    ensures s == "" <==> Collapse(s, c) == ""
    ensures s != "" ==> Collapse(s, c)[0] == s[0] && Collapse(s, c)[|Collapse(s, c)| - 1] == s[|s| - 1]
    ensures forall x :: x in Collapse(s, c) <==> x in s
    decreases |s|
  {
    if |s| >= 2 {
      CollapseIsCollapsed(s[1..], c);
      assert s == [s[0]] + s[1..];
    }
  }

  /** Collapsing a separator changes no word. */
  lemma {:induction false} CollapseKeepsWords(s: string, c: char, sep: char -> bool)
    requires forall x :: sep(x) <==> x == c
    ensures Words(Collapse(s, c), sep) == Words(s, sep)
    decreases |s|
  {
    if |s| >= 2 {
      CollapseKeepsWords(s[1..], c, sep);
      if !(s[0] == c && s[1] == c) {
        CollapseIsCollapsed(s[1..], c);
        assert ([s[0]] + Collapse(s[1..], c))[1..] == Collapse(s[1..], c);
      }
    }
  }

  lemma {:induction false} CollapsedStays(s: string, c: char)
    requires !HasPair(s, c)
    ensures Collapse(s, c) == s
    decreases |s|
  {
    if |s| >= 2 {
      PieceHasNoPair(s, 1, |s|, c);
      CollapsedStays(s[1..], c);
      assert !(s[0] == c && s[0 + 1] == c);
    }
  }

  /** The loop terminates and collapses every run. */
  method CollapseRuns(text: string, c: char) returns (r: string)
    ensures r == Collapse(text, c)
  {
    r := text;
    PairIsContained(r, c);
    while Contains(r, [c, c])
      invariant Collapse(r, c) == Collapse(text, c)
      invariant Contains(r, [c, c]) <==> HasPair(r, c)
      decreases |r|
    {
      HalveKeepsCollapse(r, c);
      HalveShrinks(r, c);
      r := ReplaceAll(r, [c, c], [c]);
      PairIsContained(r, c);
    }
    CollapsedStays(r, c);
  }

  // ---------------------------------------------------------------------------------------------
  // normalizeText
  // ---------------------------------------------------------------------------------------------

  function Map(s: string, f: char -> char): (r: string)
    ensures |r| == |s| && forall i :: 0 <= i < |s| ==> r[i] == f(s[i])
  {
    seq(|s|, i requires 0 <= i < |s| => f(s[i]))
  }

  function Normalized(text: string, lower: char -> char): string {
    Collapse(TrimSpace(Map(text, lower)), ' ')
  }

  method NormalizeText(text: string, lower: char -> char) returns (r: string)
    ensures r == Normalized(text, lower)
  {
    r := Map(text, lower);
    r := TrimSpace(r);
    r := CollapseRuns(r, ' ');
  }

  /** A lower-casing that settles at once. */
  ghost predicate Settles(lower: char -> char) { forall c :: lower(lower(c)) == lower(c) }

  /** The words of the normal form are the lower-cased words of the trimmed text. */
  lemma NormalizedKeepsWords(text: string, lower: char -> char)
    ensures var space := (x: char) => x == ' ';
            Words(Normalized(text, lower), space) == Words(TrimSpace(Map(text, lower)), space)
  {
    CollapseKeepsWords(TrimSpace(Map(text, lower)), ' ', (x: char) => x == ' ');
  }

  function AsciiLower(c: char): char { if 'A' <= c <= 'Z' then (c as int + 32) as char else c }

  lemma CollapseKeepsTrimmed(s: string, cut: char -> bool, c: char)
    requires IsTrimmed(s, cut)
    ensures IsTrimmed(Collapse(s, c), cut)
  {
    CollapseIsCollapsed(s, c);
  }

  lemma NormalizedIsNormal(text: string, lower: char -> char)
    ensures var r := Normalized(text, lower);
            && IsTrimmed(r, IsSpace) && !HasPair(r, ' ')
            && forall x :: x in r ==> exists y :: y in text && x == lower(y)
  {
    var m := Map(text, lower);
    var lo, hi := TrimIsSlice(m, IsSpace);
    CollapseKeepsTrimmed(TrimSpace(m), IsSpace, ' ');
    CollapseIsCollapsed(TrimSpace(m), ' ');
    forall x | x in Normalized(text, lower)
      ensures exists y :: y in text && x == lower(y)
    {
      assert x in m[lo..hi];
      var i :| 0 <= i < |m| && m[i] == x;
      assert text[i] in text;
    }
  }

  /** Normalising twice is normalising once, for every lower-casing that settles. */
  lemma NormalizeIsIdempotent(text: string, lower: char -> char)
    requires Settles(lower)
    ensures Normalized(Normalized(text, lower), lower) == Normalized(text, lower)
  {
    var r := Normalized(text, lower);
    NormalizedIsNormal(text, lower);
    assert Map(r, lower) == r by {
      forall i | 0 <= i < |r|
        ensures lower(r[i]) == r[i]
      {
        assert r[i] in r;
        var y :| y in text && r[i] == lower(y);
      }
    }
    TrimmedStays(r, IsSpace);
    CollapsedStays(r, ' ');
  }

  /** ASCII lower-casing turns the capitals into the small letters in their order and leaves all else. */
  lemma AsciiLowerIs(c: char)
    ensures 'A' <= c <= 'Z' ==>
              'a' <= AsciiLower(c) <= 'z' && AsciiLower(c) as int - 'a' as int == c as int - 'A' as int
    ensures c < 'A' || 'Z' < c ==> AsciiLower(c) == c
  {
  }

  /** ASCII lower-casing settles. */
  lemma NormalizeAsciiIsIdempotent(text: string)
    ensures Normalized(Normalized(text, AsciiLower), AsciiLower) == Normalized(text, AsciiLower)
  {
    NormalizeIsIdempotent(text, AsciiLower);
  }

  // ---------------------------------------------------------------------------------------------
  // suggestSessionName
  // ---------------------------------------------------------------------------------------------

  datatype Message = Message(role: string, content: string)

  predicate IsSlugChar(c: char) { 'a' <= c <= 'z' || '0' <= c <= '9' }

  function SlugChar(c: char): char { if IsSlugChar(c) then c else '-' }

  predicate IsDash(c: char) { c == '-' }

  function Dashed(content: string, lower: char -> char): string {
    Map(Map(content, lower), SlugChar)
  }

  function Cut(s: string): string { if |s| > 40 then s[..40] else s }

  /** The slug before it is cut. */
  function WholeSlug(content: string, lower: char -> char): string {
    Trim(Collapse(Dashed(content, lower), '-'), IsDash)
  }

  function Slug(content: string, lower: char -> char): string {
    TrimRight(Cut(WholeSlug(content, lower)), IsDash)
  }

  method MakeSlug(content: string, lower: char -> char) returns (text: string)
    ensures text == Slug(content, lower)
  {
    text := Map(content, lower);
    text := Map(text, SlugChar);
    text := CollapseRuns(text, '-');
    text := Trim(text, IsDash);
    if |text| > 40 {
      text := text[..40];
    }
    text := TrimRight(text, IsDash);
  }

  /** Position of the first user message, or the length. */
  function FirstUser(messages: seq<Message>): nat {
    if messages == [] || messages[0].role == "user" then 0 else 1 + FirstUser(messages[1..])
  }

  function SessionName(history: Option<seq<Message>>, date: string, lower: char -> char): string {
    if history.None? then "session-" + date
    else
      var k := FirstUser(history.value);
      if k < |history.value| && Slug(history.value[k].content, lower) != "" then
        Slug(history.value[k].content, lower) + "-" + date
      else "session-" + date
  }

  lemma {:induction false} FirstUserStep(messages: seq<Message>, i: nat)
    requires i < |messages|
    requires forall j :: 0 <= j < i ==> messages[j].role != "user"
    ensures messages[i].role == "user" ==> FirstUser(messages) == i
    decreases |messages|
  {
    if i > 0 {
      FirstUserStep(messages[1..], i - 1);
    }
  }

  lemma {:induction false} NoUser(messages: seq<Message>)
    requires forall j :: 0 <= j < |messages| ==> messages[j].role != "user"
    ensures FirstUser(messages) == |messages|
  {
    if messages != [] {
      NoUser(messages[1..]);
    }
  }

  method SuggestSessionName(history: Option<seq<Message>>, date: string, lower: char -> char)
    returns (name: string)
    ensures name == SessionName(history, date, lower)
  {
    if history.None? {
      return "session-" + date;
    }
    var messages := history.value;
    for i := 0 to |messages|
      invariant forall j :: 0 <= j < i ==> messages[j].role != "user"
    {
      if messages[i].role != "user" {
        continue;
      }
      FirstUserStep(messages, i);
      var text := MakeSlug(messages[i].content, lower);
      if text == "" {
        return "session-" + date;
      }
      return text + "-" + date;
    }
    NoUser(messages);
    return "session-" + date;
  }

  const LETTERS_AND_DIGITS := "abcdefghijklmnopqrstuvwxyz" + "0123456789"

  /** Lower-case words joined by single dashes, at most 40 characters. */
  ghost predicate IsSlug(s: string) {
    && |s| <= 40
    && (forall x :: x in s ==> x in LETTERS_AND_DIGITS || x == '-')
    && !HasPair(s, '-')
    && IsTrimmed(s, IsDash)
  }

  lemma PieceHasNoPair(s: string, lo: nat, hi: nat, c: char)
    requires lo <= hi <= |s| && !HasPair(s, c)
    ensures !HasPair(s[lo..hi], c)
  {
  }

  lemma CutIsPrefix(s: string)
    ensures |Cut(s)| <= 40 && Cut(s) <= s && (s != "" ==> Cut(s) != "")
  {
  }

  /** A slug is a piece of the collapsed text that begins with its first letter or digit. */
  lemma SlugIsPiece(content: string, lower: char -> char) returns (lo: nat, hi: nat)
    ensures var t := Collapse(Dashed(content, lower), '-');
            && lo <= hi <= |t| && hi - lo <= 40
            && Slug(content, lower) == t[lo..hi] && IsTrimmed(t[lo..hi], IsDash)
            && (lo < hi || forall i :: 0 <= i < |t| ==> t[i] == '-')
  {
    var t := Collapse(Dashed(content, lower), '-');
    var end: nat;
    lo, end := TrimIsSlice(t, IsDash);
    var u := Cut(t[lo..end]);
    CutIsPrefix(t[lo..end]);
    var n := TrimRightIsPrefix(u, IsDash);
    hi := lo + n;
    assert t[lo..end][..|u|] == t[lo..lo + |u|];
    assert u[..n] == t[lo..hi];
    if lo < end {
      assert t[lo..end][0] == t[lo] && !IsDash(t[lo]);
      assert u[0] == t[lo];
    }
  }

  lemma SlugCharsAreLettersAndDigits(c: char)
    ensures IsSlugChar(c) <==> c in LETTERS_AND_DIGITS
  {
    var letters, digits := "abcdefghijklmnopqrstuvwxyz", "0123456789";
    assert forall i :: 0 <= i < 26 ==> letters[i] as int == 'a' as int + i;
    assert forall i :: 0 <= i < 10 ==> digits[i] as int == '0' as int + i;
    if 'a' <= c <= 'z' {
      assert letters[c as int - 'a' as int] == c;
    } else if '0' <= c <= '9' {
      assert digits[c as int - '0' as int] == c;
    }
  }

  lemma {:induction false} DashesSeparate(s: string, sep: char -> bool)
    requires forall c :: sep(c) <==> !IsSlugChar(c)
    ensures |Words(Map(s, SlugChar), IsDash)| == |Words(s, sep)|
    ensures Words(Map(s, SlugChar), IsDash) == Words(s, sep)
    decreases |s|
  {
    if s != "" {
      DashesSeparate(s[1..], sep);
      assert Map(s, SlugChar)[1..] == Map(s[1..], SlugChar);
    }
  }

  /** Before the cut, the words of a slug are the words of letters and digits of the lower-cased message. */
  lemma SlugKeepsWords(content: string, lower: char -> char)
    ensures var other := (c: char) => c !in LETTERS_AND_DIGITS;
            Words(WholeSlug(content, lower), IsDash) == Words(Map(content, lower), other)
  {
    var other := (c: char) => c !in LETTERS_AND_DIGITS;
    forall c
      ensures other(c) <==> !IsSlugChar(c)
    {
      SlugCharsAreLettersAndDigits(c);
    }
    DashesSeparate(Map(content, lower), other);
    CollapseKeepsWords(Dashed(content, lower), '-', IsDash);
    TrimKeepsWords(Collapse(Dashed(content, lower), '-'), IsDash);
  }

  /** A slug of more than 40 characters keeps its first 40, less a dash at the end; a shorter one stays whole. */
  lemma SlugIsCutAt40(content: string, lower: char -> char)
    ensures var whole := WholeSlug(content, lower); var slug := Slug(content, lower);
            if |whole| <= 40 then slug == whole
            else slug == if whole[39] == '-' then whole[..39] else whole[..40]
  {
    var t := Collapse(Dashed(content, lower), '-');
    var whole := WholeSlug(content, lower);
    CollapseIsCollapsed(Dashed(content, lower), '-');
    var lo, hi := TrimIsSlice(t, IsDash);
    PieceHasNoPair(t, lo, hi, '-');
    if |whole| > 40 {
      assert !(whole[38] == '-' && whole[38 + 1] == '-');
      TrimOneDash(whole[..40]);
      assert whole[..40][..39] == whole[..39];
    } else {
      TrimmedStays(whole, IsDash);
    }
  }

  lemma TrimOneDash(s: string)
    requires |s| >= 2 && !(s[|s| - 2] == '-' && s[|s| - 1] == '-')
    ensures TrimRight(s, IsDash) == if s[|s| - 1] == '-' then s[..|s| - 1] else s
  {
    if s[|s| - 1] == '-' {
      var t := s[..|s| - 1];
      assert t[|t| - 1] != '-';
    }
  }

  /** Whatever the message and the lower-casing, the name before the date is a proper slug. */
  lemma SlugIsSlug(content: string, lower: char -> char)
    ensures IsSlug(Slug(content, lower))
  {
    var d := Dashed(content, lower);
    var t := Collapse(d, '-');
    CollapseIsCollapsed(d, '-');
    var lo, hi := SlugIsPiece(content, lower);
    PieceHasNoPair(t, lo, hi, '-');
    forall x | x in t[lo..hi]
      ensures x in LETTERS_AND_DIGITS || x == '-'
    {
      assert x in d;
      SlugCharsAreLettersAndDigits(x);
    }
  }

  /** The fallback name is used exactly when the message has no letter or digit. */
  lemma SlugIsEmptyIff(content: string, lower: char -> char)
    ensures Slug(content, lower) == "" <==> forall i :: 0 <= i < |content| ==> lower(content[i]) !in LETTERS_AND_DIGITS
  {
    forall c
      ensures IsSlugChar(c) <==> c in LETTERS_AND_DIGITS
    {
      SlugCharsAreLettersAndDigits(c);
    }
    var d := Dashed(content, lower);
    var t := Collapse(d, '-');
    CollapseIsCollapsed(d, '-');
    var lo, hi := SlugIsPiece(content, lower);
    if lo == hi {
      forall i | 0 <= i < |content|
        ensures !IsSlugChar(lower(content[i]))
      {
        assert d[i] in t;
      }
    } else {
      assert t[lo] == t[lo..hi][0] && t[lo] in t;
      var i :| 0 <= i < |d| && d[i] == t[lo];
      assert IsSlugChar(lower(content[i]));
    }
  }

  /** The first user message alone decides the name. */
  lemma NameFollowsFirstUser(messages: seq<Message>, i: nat, date: string, lower: char -> char)
    requires i < |messages| && messages[i].role == "user"
    requires forall j :: 0 <= j < i ==> messages[j].role != "user"
    ensures var slug := Slug(messages[i].content, lower);
            SessionName(Some(messages), date, lower)
            == if slug == "" then "session-" + date else slug + "-" + date
  {
    FirstUserStep(messages, i);
  }

  /** Without a history or a user message the name is the fallback. */
  lemma NameWithoutUser(history: Option<seq<Message>>, date: string, lower: char -> char)
    requires history.Some? ==> forall j :: 0 <= j < |history.value| ==> history.value[j].role != "user"
    ensures SessionName(history, date, lower) == "session-" + date
  {
    if history.Some? {
      NoUser(history.value);
    }
  }

  /** A slug is its own slug. */
  lemma SlugIsIdempotent(s: string, lower: char -> char)
    requires IsSlug(s) && forall c :: c in LETTERS_AND_DIGITS || c == '-' ==> lower(c) == c
    ensures Slug(s, lower) == s
  {
    assert Dashed(s, lower) == s by {
      forall i | 0 <= i < |s|
        ensures SlugChar(lower(s[i])) == s[i]
      {
        assert s[i] in s;
        SlugCharsAreLettersAndDigits(s[i]);
      }
    }
    CollapsedStays(s, '-');
    TrimmedStays(s, IsDash);
  }
}
