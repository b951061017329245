/**
 The approval matcher: named patterns compiled to regular expressions, a search for the patterns that
 apply to a target, and a memo table of past answers.
 */
module Approval {
  import opened Common
  import opened Utf8
  import opened GlobRegex

  type Predicate = string -> bool

  /** `regexp.Compile`: the test of a compiled expression, or None for an invalid one. */
  type Compiler = string -> Option<Predicate>

  datatype Pattern = Pattern(name: string, pattern: string, category: string, priority: int,
                             condition: Option<Predicate>)

  datatype Rule = Rule(matches: Predicate, isGlob: bool, condition: Option<Predicate>)

  // ---------------------------------------------------------------------------------------------
  // Compiling a pattern
  // ---------------------------------------------------------------------------------------------

  predicate ContainsAny(s: string, chars: string) {
    exists i :: 0 <= i < |s| && s[i] in chars
  }

  predicate IsLikelyRegex(s: string) {
    if "^" <= s || (s != "" && s[|s| - 1] == '$') then true
    else ContainsAny(s, "[]()|+\\")
  }

  predicate IsGlob(s: string) { !IsLikelyRegex(s) && ContainsAny(s, "*?") }

  /** The test a pattern is compiled to. */
  function Compiled(compile: Compiler, p: Pattern): Option<Predicate> {
    compile(if IsGlob(p.pattern) then "^" + Emit(Latin(Encode(p.pattern))) + "$" else p.pattern)
  }

  /** The regular expression library accepts the glob compiler's fragment and reads it as RE2 does. */
  ghost predicate IsRe2(compile: Compiler) {
    forall s :: Parse(s).Some? ==>
      compile(s).Some? && forall t :: compile(s).value(t) <==> MatchString(Parse(s).value, t)
  }

  /** One of the characters that make a pattern a regular expression wherever they stand. */
  predicate IsTelltale(c: char) {
    c == '[' || c == ']' || c == '(' || c == ')' || c == '|' || c == '+' || c == '\\'
  }

  /** A glob: it holds a star or a question mark, none of the telltale characters, no caret in front and no
      dollar at the end. */
  ghost predicate LooksLikeGlob(s: string) {
    && (exists i :: 0 <= i < |s| && (s[i] == '*' || s[i] == '?'))
    && (forall i :: 0 <= i < |s| ==> !IsTelltale(s[i]))
    && (s != "" ==> s[0] != '^' && s[|s| - 1] != '$')
  }

  lemma GlobsLookLikeGlobs(s: string)
    ensures IsGlob(s) <==> LooksLikeGlob(s)
  {
    assert "^" <= s <==> s != "" && s[0] == '^';
    assert forall c :: c in "[]()|+\\" <==> IsTelltale(c);
    assert forall c :: c in "*?" <==> c == '*' || c == '?';
  }

  /** Over any RE2 library, an ASCII pattern that looks like a glob is always accepted and tests exactly
      the glob. */
  lemma GlobPatternsMeanGlobs(compile: Compiler, p: Pattern, t: string)
    requires IsRe2(compile) && LooksLikeGlob(p.pattern) && AllAscii(p.pattern)
    ensures Compiled(compile, p).Some?
    ensures Compiled(compile, p).value(t) <==> GlobMatch(p.pattern, t)
  {
    GlobsLookLikeGlobs(p.pattern);
    LatinOfAscii(p.pattern);
    CompiledParses(p.pattern);
    CompiledMatches(p.pattern, t);
  }

  /** Any other pattern is a regular expression and tests what RE2 reads it as. */
  lemma OtherPatternsMeanThemselves(compile: Compiler, p: Pattern, t: string)
    requires IsRe2(compile) && !LooksLikeGlob(p.pattern) && Parse(p.pattern).Some?
    ensures Compiled(compile, p).Some?
    ensures Compiled(compile, p).value(t) <==> MatchString(Parse(p.pattern).value, t)
  {
    GlobsLookLikeGlobs(p.pattern);
  }

  // ---------------------------------------------------------------------------------------------
  // The search
  // ---------------------------------------------------------------------------------------------

  type Patterns = map<string, Pattern>

  /** The pattern covers the category, its expression matches and its condition holds. */
  predicate Applies(compile: Compiler, p: Pattern, target: string, category: string) {
    && (category == "" || p.category == category)
    && Compiled(compile, p).Some? && Compiled(compile, p).value(target)
    && (p.condition.Some? ==> p.condition.value(target))
  }

  ghost predicate Verdict(compile: Compiler, ps: Patterns, target: string, category: string) {
    exists n :: n in ps && Applies(compile, ps[n], target, category)
  }

  /** The list holds each pattern that applies, once. */
  ghost predicate IsSearchResult(compile: Compiler, ps: Patterns, target: string, category: string,
                                 found: seq<Pattern>)
  {
    && (forall p :: p in found <==>
          p.name in ps && ps[p.name] == p && Applies(compile, p, target, category))
    && (forall p :: multiset(found)[p] <= 1)
  }

  ghost predicate Descending(s: seq<Pattern>) {
    forall i, j :: 0 <= i < j < |s| ==> s[i].priority >= s[j].priority
  }

  method Swap<T>(a: array<T>, i: nat, j: nat)
    requires i < j < a.Length
    modifies a
    ensures a[i] == old(a[j]) && a[j] == old(a[i])
    ensures forall k :: 0 <= k < a.Length && k != i && k != j ==> a[k] == old(a[k])
    ensures multiset(a[..]) == old(multiset(a[..]))
  {
    a[i], a[j] := a[j], a[i];
  }

  /** `above` entries at the front are in order and at least as important as all that follow. */
  ghost predicate SortedUpTo(a: array<Pattern>, above: int)
    reads a
  {
    forall k, l :: 0 <= k < above && k < l < a.Length ==> a[k].priority >= a[l].priority
  }

  method SortByPriority(a: array<Pattern>)
    modifies a
    ensures multiset(a[..]) == old(multiset(a[..]))
    ensures Descending(a[..])
  {
    var i := 0;
    while i < a.Length
      invariant 0 <= i <= a.Length
      invariant multiset(a[..]) == old(multiset(a[..]))
      invariant SortedUpTo(a, i)
    {
      var j := i + 1;
      while j < a.Length
        invariant i < j <= a.Length
        invariant multiset(a[..]) == old(multiset(a[..]))
        invariant SortedUpTo(a, i)
        invariant forall l :: i < l < j ==> a[i].priority >= a[l].priority
      {
        if a[j].priority > a[i].priority {
          Swap(a, i, j);
        }
        j := j + 1;
      }
      i := i + 1;
    }
  }

  /** The search so far: `left` are the names not looked at. */
  ghost predicate Collected(compile: Compiler, ps: Patterns, target: string, category: string,
                            left: set<string>, found: seq<Pattern>)
  {
    IsSearchResult(compile, ps - left, target, category, found)
  }

  lemma LookAt(compile: Compiler, ps: Patterns, target: string, category: string,
               left: set<string>, n: string, found: seq<Pattern>)
    requires n in left && n in ps && ps[n].name == n
    requires Collected(compile, ps, target, category, left, found)
    ensures Collected(compile, ps, target, category, left - {n},
                      if Applies(compile, ps[n], target, category) then found + [ps[n]] else found)
  {
    assert ps[n] !in found;
  }

  // ---------------------------------------------------------------------------------------------
  // The matcher
  // ---------------------------------------------------------------------------------------------

  /** What the matcher remembers: its patterns and the answers in the memo table. */
  datatype Memory = Memory(patterns: Patterns, approved: map<string, bool>)

  function Key(target: string, category: string): string { category + ":" + target }

  datatype Op = Add(p: Pattern) | Match(target: string, category: string) | Clear

  predicate Accepted(compile: Compiler, p: Pattern) { p.name != "" && Compiled(compile, p).Some? }

  ghost function Answer(compile: Compiler, m: Memory, target: string, category: string): bool {
    if Key(target, category) in m.approved then m.approved[Key(target, category)]
    else Verdict(compile, m.patterns, target, category)
  }

  ghost function Next(compile: Compiler, m: Memory, op: Op): Memory {
    match op
    case Add(p) => if Accepted(compile, p) then m.(patterns := m.patterns[p.name := p]) else m
    case Match(t, c) => m.(approved := m.approved[Key(t, c) := Answer(compile, m, t, c)])
    case Clear => m.(approved := map[])
  }

  const SAFE_DIRECTORIES := ["src", "internal", "pkg", "lib", "test", "tests", "vendor",
                             "node_modules", "docs", "examples", ".github"]

  predicate IsSafeDirectory(path: string) {
    exists i :: 0 <= i < |SAFE_DIRECTORIES| && SAFE_DIRECTORIES[i] + "/" <= path
  }

  /** The patterns every matcher starts with. */
  function DefaultPatterns(): seq<Pattern> {
    [Pattern("read_src_files",
             "^(" + "src|internal|pkg|lib|vendor|test|tests" + ")/.+\\.("
             + "go|py|js|ts|jsx|tsx|rb|java|cpp|c|h|hpp|rs" + ")$",
             "file_read", 10, Some(IsSafeDirectory)),
     Pattern("read_config", "^.*\\.(" + "yaml|yml|json|toml|ini|conf|config" + ")$", "file_read", 9, None),
     Pattern("tool_list_tools", "^" + "list_tools" + "$", "tool_call", 10, None),
     Pattern("git_status", "^git_(status|log|diff)$", "tool_call", 9, None),
     Pattern("system_info", "^" + "system_info" + "$", "tool_call", 10, None),
     Pattern("list_directory", "^" + "list_directory" + "$", "tool_call", 8, None),
     Pattern("search_files", "^(search_files|grep_content)$", "tool_call", 8, None)]
  }

  const EMPTY := Memory(map[], map[])

  /** An empty matcher after adding `ps` in turn. */
  ghost function Registered(compile: Compiler, ps: seq<Pattern>): Memory {
    if ps == [] then EMPTY
    else Next(compile, Registered(compile, ps[..|ps| - 1]), Add(ps[|ps| - 1]))
  }

  /** A new matcher: nothing remembered, and the default patterns the library accepts. */
  ghost function Start(compile: Compiler): Memory { Registered(compile, DefaultPatterns()) }

  class PatternMatcher {
    const compile: Compiler
    var patterns: map<string, Pattern>
    var rules: map<string, Rule>
    var approved: map<string, bool>

    ghost predicate Valid()
      reads this
    {
      && patterns.Keys == rules.Keys
      && (forall n :: n in patterns ==>
            && patterns[n].name == n
            && Compiled(compile, patterns[n]) == Some(rules[n].matches)
            && rules[n].isGlob == ContainsAny(patterns[n].pattern, "*")
            && rules[n].condition == patterns[n].condition)
    }

    ghost function Contents(): Memory
      reads this
    {
      Memory(patterns, approved)
    }

    constructor (compile: Compiler)
      ensures Valid() && Contents() == Start(compile) && this.compile == compile
    {
      this.compile := compile;
      patterns, rules, approved := map[], map[], map[];
      new;
      RegisterDefaultPatterns();
    }

    method RegisterDefaultPatterns()
      requires Valid() && Contents() == EMPTY
      modifies this
      ensures Valid() && Contents() == Start(compile)
    {
      var defaults := DefaultPatterns();
      for i := 0 to |defaults|
        invariant Valid() && Contents() == Registered(compile, defaults[..i])
      {
        assert defaults[..i + 1][..i] == defaults[..i];
        var _ := AddPattern(defaults[i]);
      }
      assert defaults[..|defaults|] == defaults;
    }

    method AddPattern(pattern: Pattern) returns (ok: bool)
      requires Valid()
      modifies this
      ensures Valid()
      ensures ok <==> Accepted(compile, pattern)
      ensures Contents() == Next(compile, old(Contents()), Add(pattern))
    {
      if pattern.name == "" {
        return false;
      }
      var regex := pattern.pattern;
      if IsGlob(pattern.pattern) {
        regex := GlobToRegex(Encode(pattern.pattern));
      }
      var compiled := compile(regex);
      if compiled.None? {
        return false;
      }
      patterns := patterns[pattern.name := pattern];
      rules := rules[pattern.name :=
          Rule(compiled.value, ContainsAny(pattern.pattern, "*"), pattern.condition)];
      return true;
    }

    /** The common loop of Match and GetMatchingPatterns, over the map in any order. */
    method Collect(target: string, category: string) returns (found: seq<Pattern>)
      requires Valid()
      ensures IsSearchResult(compile, patterns, target, category, found)
    {
      found := [];
      var names := patterns.Keys;
      while names != {}
        invariant names <= patterns.Keys
        invariant Collected(compile, patterns, target, category, names, found)
        decreases |names|
      {
        var n :| n in names;
        LookAt(compile, patterns, target, category, names, n, found);
        names := names - {n};
        var pattern := patterns[n];
        var rule := rules[n];
        assert Compiled(compile, pattern) == Some(rule.matches) && rule.condition == pattern.condition;
        if (category == "" || pattern.category == category) && rule.matches(target)
           && (rule.condition.None? || rule.condition.value(target))
        {
          found := found + [pattern];
        }
      }
    }

    /** The search, most important pattern first. */
    method Search(target: string, category: string) returns (matches: seq<Pattern>)
      requires Valid()
      ensures IsSearchResult(compile, patterns, target, category, matches)
      ensures Descending(matches)
    {
      var found := Collect(target, category);
      var a := new Pattern[|found|](i requires 0 <= i < |found| => found[i]);
      assert a[..] == found;
      SortByPriority(a);
      matches := a[..];
      assert forall p :: p in matches <==> p in multiset(matches);
    }

    method Match(target: string, category: string) returns (ok: bool, name: string)
      requires Valid()
      modifies this`approved
      ensures Valid()
      ensures ok == old(Answer(compile, Contents(), target, category))
      ensures Contents() == Next(compile, old(Contents()), Op.Match(target, category))
      ensures ok && Key(target, category) !in old(approved) ==>
                && name in patterns && Applies(compile, patterns[name], target, category)
                && forall n :: n in patterns && Applies(compile, patterns[n], target, category) ==>
                     patterns[n].priority <= patterns[name].priority
      ensures !ok || Key(target, category) in old(approved) ==> name == ""
    {
      var cacheKey := Key(target, category);
      if cacheKey in approved {
        return approved[cacheKey], "";
      }
      var matches := Search(target, category);
      if |matches| > 0 {
        assert matches[0] in matches;
        approved := approved[cacheKey := true];
        forall n | n in patterns && Applies(compile, patterns[n], target, category)
          ensures patterns[n].priority <= matches[0].priority
        {
          assert patterns[n] in matches;
        }
        return true, matches[0].name;
      }
      assert forall n :: n in patterns ==> patterns[n] !in matches;
      approved := approved[cacheKey := false];
      return false, "";
    }

    method GetMatchingPatterns(target: string, category: string) returns (matches: seq<Pattern>)
      requires Valid()
      ensures IsSearchResult(compile, patterns, target, category, matches)
      ensures Descending(matches)
      ensures matches != [] <==> Verdict(compile, patterns, target, category)
    {
      matches := Search(target, category);
      if matches != [] {
        assert matches[0] in matches;
      }
      assert forall n :: n in patterns && Applies(compile, patterns[n], target, category) ==>
          patterns[n] in matches;
    }

    method ClearCache()
      requires Valid()
      modifies this`approved
      ensures Valid()
      ensures Contents() == Next(compile, old(Contents()), Clear)
    {
      approved := map[];
    }
  }

  // ---------------------------------------------------------------------------------------------
  // Runs: the memo table agrees with the search
  // ---------------------------------------------------------------------------------------------

  /** `m` after the calls of `run`. */
  ghost function After(compile: Compiler, m: Memory, run: seq<Op>): Memory {
    if run == [] then m
    else Next(compile, After(compile, m, run[..|run| - 1]), run[|run| - 1])
  }

  lemma AfterStep(compile: Compiler, m: Memory, run: seq<Op>, i: nat)
    requires i < |run|
    ensures After(compile, m, run[..i + 1]) == Next(compile, After(compile, m, run[..i]), run[i])
  {
    assert run[..i + 1][..i] == run[..i];
  }

  lemma AfterTwo(compile: Compiler, m: Memory, run: seq<Op>)
    requires |run| >= 2
    ensures After(compile, m, run[..2]) == Next(compile, Next(compile, m, run[0]), run[1])
  {
    AfterStep(compile, m, run, 0);
    AfterStep(compile, m, run, 1);
  }

  /** The answer the call at position `i` returns. */
  ghost function AnswerAt(compile: Compiler, m: Memory, run: seq<Op>, i: nat): bool
    requires i < |run| && run[i].Match?
  {
    Answer(compile, After(compile, m, run[..i]), run[i].target, run[i].category)
  }

  /** What the uncached search says at position `i`. */
  ghost function SearchAt(compile: Compiler, m: Memory, run: seq<Op>, i: nat): bool
    requires i < |run| && run[i].Match?
  {
    Verdict(compile, After(compile, m, run[..i]).patterns, run[i].target, run[i].category)
  }

  predicate SameKey(a: Op, b: Op) {
    a.Match? && b.Match? && Key(a.target, a.category) == Key(b.target, b.category)
  }

  /** The call at `j` asks for `key`, and the table is not cleared between `j` and `i`. */
  ghost predicate AskedAt(run: seq<Op>, key: string, j: nat, i: nat)
    requires i <= |run|
  {
    && j < i && run[j].Match? && Key(run[j].target, run[j].category) == key
    && forall k :: j < k < i ==> run[k] != Clear
  }

  lemma {:induction false} QuestionsAreRemembered(compile: Compiler, m: Memory, run: seq<Op>, key: string)
    ensures forall k: nat :: AskedAt(run, key, k, |run|) ==> key in After(compile, m, run).approved
    decreases |run|
  {
    if run != [] {
      var n := |run| - 1;
      var init := run[..n];
      QuestionsAreRemembered(compile, m, init, key);
      assert forall k: nat :: AskedAt(run, key, k, |run|) && k < n ==> AskedAt(init, key, k, n);
    }
  }

  /** Every entry of the table holds a search for its key since the last clearing. */
  lemma {:induction false} EntriesComeFromSearches(compile: Compiler, m: Memory, run: seq<Op>, key: string)
    returns (j: nat)
    requires m.approved == map[] && key in After(compile, m, run).approved
    ensures AskedAt(run, key, j, |run|) && key !in After(compile, m, run[..j]).approved
    ensures After(compile, m, run).approved[key] == SearchAt(compile, m, run, j)
    decreases |run|
  {
    var n := |run| - 1;
    var init := run[..n];
    if key in After(compile, m, init).approved {
      j := EntriesComeFromSearches(compile, m, init, key);
      assert init[..j] == run[..j];
    } else {
      j := n;
    }
  }

  lemma NotAskedBefore(compile: Compiler, m: Memory, run: seq<Op>, key: string, j: nat, i: nat)
    requires j <= i <= |run| && key !in After(compile, m, run[..j]).approved
    ensures forall k: nat :: AskedAt(run, key, k, i) ==> j <= k
  {
    QuestionsAreRemembered(compile, m, run[..j], key);
    assert forall k: nat :: AskedAt(run, key, k, i) && k < j ==> AskedAt(run[..j], key, k, j);
  }

  /** Match answers what the search answered at the first Match of the same key since ClearCache. */
  lemma MatchAnswersTheFirstSearch(compile: Compiler, m: Memory, run: seq<Op>, i: nat) returns (j: nat)
    requires m.approved == map[] && i < |run| && run[i].Match?
    ensures j <= i && SameKey(run[j], run[i]) && forall k :: j < k < i ==> run[k] != Clear
    ensures forall k: nat :: AskedAt(run, Key(run[i].target, run[i].category), k, i) ==> j <= k
    ensures AnswerAt(compile, m, run, i) == SearchAt(compile, m, run, j)
  {
    var key := Key(run[i].target, run[i].category);
    var init := run[..i];
    if key in After(compile, m, init).approved {
      j := EntriesComeFromSearches(compile, m, init, key);
      assert init[..j] == run[..j];
    } else {
      j := i;
    }
    NotAskedBefore(compile, m, run, key, j, i);
  }

  // ---------------------------------------------------------------------------------------------
  // When the memo table agrees with the search
  // ---------------------------------------------------------------------------------------------

  /** Every Match answers what the search would answer there and then. */
  ghost predicate Coherent(compile: Compiler, m: Memory, run: seq<Op>) {
    forall i :: 0 <= i < |run| && run[i].Match? ==> AnswerAt(compile, m, run, i) == SearchAt(compile, m, run, i)
  }

  ghost predicate ClearedBetween(run: seq<Op>, j: nat, i: nat)
    requires i <= |run|
  {
    exists k :: j < k < i && run[k] == Clear
  }

  /** When a question is asked again after an AddPattern, the cache has been cleared since it was first asked. */
  ghost predicate Disciplined(run: seq<Op>) {
    forall j, a, i :: 0 <= j < a < i < |run| && SameKey(run[j], run[i]) && run[a].Add? ==>
      ClearedBetween(run, j, i)
  }

  ghost predicate AsksWithin(cats: iset<string>, run: seq<Op>) {
    forall i :: 0 <= i < |run| && run[i].Match? ==> run[i].category in cats
  }

  /** No category, with a colon, starts another. */
  ghost predicate NoClash(cats: iset<string>) {
    forall c, d :: c in cats && d in cats && c != d ==> !(c + ":" <= d)
  }

  lemma EqualKeys(c: string, t: string, d: string, u: string)
    requires Key(t, c) == Key(u, d) && |c| <= |d|
    ensures (c == d && t == u) || c + ":" <= d
  {
    var k := Key(t, c);
    assert c == k[..|c|] && c + ":" == k[..|c| + 1];
    assert d == k[..|d|] && t == k[|c| + 1..] && u == k[|d| + 1..];
  }

  /** Within categories that do not clash, equal keys are equal questions. */
  lemma SameQuestion(cats: iset<string>, run: seq<Op>, j: nat, i: nat)
    requires NoClash(cats) && AsksWithin(cats, run) && j < |run| && i < |run| && SameKey(run[j], run[i])
    ensures run[j] == run[i]
  {
    var c, d := run[j].category, run[i].category;
    if |c| <= |d| {
      EqualKeys(c, run[j].target, d, run[i].target);
    } else {
      EqualKeys(d, run[i].target, c, run[j].target);
    }
  }

  lemma {:induction false} PatternsChangeByAdding(compile: Compiler, m: Memory, run: seq<Op>, j: nat, i: nat)
    requires j <= i <= |run| && forall k :: j <= k < i ==> !run[k].Add?
    ensures After(compile, m, run[..i]).patterns == After(compile, m, run[..j]).patterns
    decreases i
  {
    if j < i {
      PatternsChangeByAdding(compile, m, run, j, i - 1);
      AfterStep(compile, m, run, i - 1);
    }
  }

  /** In a disciplined run whose categories do not clash every Match answers as the search. */
  lemma DisciplinedRunsAreCoherent(compile: Compiler, m: Memory, run: seq<Op>, cats: iset<string>)
    requires m.approved == map[] && Disciplined(run) && AsksWithin(cats, run) && NoClash(cats)
    ensures Coherent(compile, m, run)
  {
    forall i | 0 <= i < |run| && run[i].Match?
      ensures AnswerAt(compile, m, run, i) == SearchAt(compile, m, run, i)
    {
      var j := MatchAnswersTheFirstSearch(compile, m, run, i);
      SameQuestion(cats, run, j, i);
      PatternsChangeByAdding(compile, m, run, j, i);
    }
  }

  /** A matcher that has just learnt `p`, asked about `t` in category `c`, then about `u` in `d`. */
  lemma SecondAnswerIsFirst(compile: Compiler, m: Memory, p: Pattern,
                            t: string, c: string, u: string, d: string)
    requires m.approved == map[] && forall n :: n in m.patterns ==> m.patterns[n].category != d
    requires Accepted(compile, p) && Applies(compile, p, t, c) && Key(t, c) == Key(u, d)
    requires d != "" && p.category != d
    ensures !Coherent(compile, m, [Add(p), Match(t, c), Match(u, d)])
  {
    var run := [Add(p), Match(t, c), Match(u, d)];
    var ps := m.patterns[p.name := p];
    AfterTwo(compile, m, run);
    assert Applies(compile, ps[p.name], t, c);
    assert AnswerAt(compile, m, run, 2) && !SearchAt(compile, m, run, 2);
  }

  lemma {:induction false} RegisteredPatterns(compile: Compiler, ps: seq<Pattern>)
    ensures Registered(compile, ps).approved == map[]
    ensures forall n :: n in Registered(compile, ps).patterns ==>
              var p := Registered(compile, ps).patterns[n];
              p in ps && p.name == n && Accepted(compile, p)
  {
    if ps != [] {
      RegisteredPatterns(compile, ps[..|ps| - 1]);
    }
  }

  lemma DefaultCategories(p: Pattern)
    requires p in DefaultPatterns()
    ensures p.category == "file_read" || p.category == "tool_call"
  {
  }

  /** What matters of a new matcher: nothing remembered, and accepted patterns of two categories. */
  ghost predicate IsStart(compile: Compiler, m: Memory) {
    && m.approved == map[]
    && forall n :: n in m.patterns ==>
         && m.patterns[n].name == n && Accepted(compile, m.patterns[n])
         && (m.patterns[n].category == "file_read" || m.patterns[n].category == "tool_call")
  }

  lemma StartIsStart(compile: Compiler)
    ensures IsStart(compile, Start(compile))
  {
    var m := Start(compile);
    RegisteredPatterns(compile, DefaultPatterns());
    forall n | n in m.patterns
      ensures m.patterns[n].category == "file_read" || m.patterns[n].category == "tool_call"
    {
      DefaultCategories(m.patterns[n]);
    }
  }

  /** The empty expression is a search that every text satisfies. */
  lemma EmptyMatchesAll(compile: Compiler, p: Pattern, t: string)
    requires IsRe2(compile) && p.pattern == ""
    ensures Compiled(compile, p).Some? && Compiled(compile, p).value(t)
  {
    assert Parse("") == Some([]);
    assert MatchesSeq([], t, 0, 0);
  }

  lemma PrefixHoldsColon(c: string, d: string)
    ensures c + ":" <= d ==> ':' in d
  {
    assert c + ":" <= d ==> d[|c|] == ':';
  }

  lemma ClashingKeys(c: string, d: string)
    requires c + ":" <= d
    ensures Key(d[|c| + 1..] + ":", c) == Key("", d)
  {
    assert d == c + ":" + d[|c| + 1..];
  }

  lemma AddingFirstIsDisciplined(run: seq<Op>)
    requires forall a :: 0 < a < |run| ==> !run[a].Add?
    ensures Disciplined(run)
  {
  }

  /** Two clashing categories share a key: a disciplined run in which a Match repeats a foreign answer. */
  lemma ClashingCategoriesCollide(compile: Compiler, m: Memory, c: string, d: string, p: Pattern, run: seq<Op>)
    requires IsRe2(compile) && IsStart(compile, m) && c + ":" <= d && p == Pattern("p", "", c, 0, None)
    requires run == [Add(p), Match(d[|c| + 1..] + ":", c), Match("", d)]
    ensures Disciplined(run) && !Coherent(compile, m, run)
  {
    AddingFirstIsDisciplined(run);
    PrefixHoldsColon(c, d);
    ClashingKeys(c, d);
    EmptyMatchesAll(compile, p, run[1].target);
    SecondAnswerIsFirst(compile, m, p, run[1].target, c, "", d);
  }

  lemma ClashesCanFail(compile: Compiler, m: Memory, cats: iset<string>) returns (run: seq<Op>)
    requires IsRe2(compile) && IsStart(compile, m) && !NoClash(cats)
    ensures Disciplined(run) && AsksWithin(cats, run) && !Coherent(compile, m, run)
  {
    var c, d :| c in cats && d in cats && c + ":" <= d;
    var p := Pattern("p", "", c, 0, None);
    run := [Add(p), Match(d[|c| + 1..] + ":", c), Match("", d)];
    ClashingCategoriesCollide(compile, m, c, d, p, run);
  }

  /** Over every RE2 library the table is coherent in all disciplined runs exactly when no two categories
      clash. */
  lemma CoherentIff(compile: Compiler, cats: iset<string>)
    requires IsRe2(compile)
    ensures (forall run :: Disciplined(run) && AsksWithin(cats, run) ==> Coherent(compile, Start(compile), run))
            <==> NoClash(cats)
  {
    StartIsStart(compile);
    if NoClash(cats) {
      forall run | Disciplined(run) && AsksWithin(cats, run)
        ensures Coherent(compile, Start(compile), run)
      {
        DisciplinedRunsAreCoherent(compile, Start(compile), run, cats);
      }
    } else {
      var run := ClashesCanFail(compile, Start(compile), cats);
    }
  }

  ghost const COLON_FREE := iset c: string | ':' !in c

  /** Categories without colons never clash. */
  lemma ColonFreeRunsAreCoherent(compile: Compiler, run: seq<Op>)
    requires Disciplined(run) && AsksWithin(COLON_FREE, run)
    ensures Coherent(compile, Start(compile), run)
  {
    var cats := COLON_FREE;
    forall c, d | c in cats && d in cats && c != d
      ensures !(c + ":" <= d)
    {
      PrefixHoldsColon(c, d);
    }
    StartIsStart(compile);
    DisciplinedRunsAreCoherent(compile, Start(compile), run, cats);
  }

  /** Without clearing, a pattern added after a denial stays unseen. */
  lemma AddingNeedsClearing(compile: Compiler, p: Pattern, run: seq<Op>)
    requires Accepted(compile, p) && Applies(compile, p, "t", "c")
    requires run == [Match("t", "c"), Add(p), Match("t", "c")]
    ensures AsksWithin(COLON_FREE, run) && !Coherent(compile, Start(compile), run)
  {
    var m := Start(compile);
    StartIsStart(compile);
    AfterTwo(compile, m, run);
    assert After(compile, m, run[..2]).patterns[p.name] == p;
    assert !AnswerAt(compile, m, run, 2) && SearchAt(compile, m, run, 2);
  }

  /** The runs differ in the patterns they add, nothing else. */
  ghost predicate SameShape(a: seq<Op>, b: seq<Op>) {
    && |a| == |b|
    && forall i :: 0 <= i < |a| ==> a[i] == b[i] || (a[i].Add? && b[i].Add?)
  }

  lemma ShapeKeepsClearing(run: seq<Op>, other: seq<Op>, j: nat, i: nat)
    requires SameShape(run, other) && i <= |run| && ClearedBetween(run, j, i)
    ensures ClearedBetween(other, j, i)
  {
    var k :| j < k < i && run[k] == Clear;
    assert other[k] == Clear;
  }

  lemma ShapeKeepsDiscipline(run: seq<Op>, other: seq<Op>)
    requires Disciplined(run) && SameShape(run, other)
    ensures Disciplined(other)
  {
    forall j, a, i | 0 <= j < a < i < |run| && SameKey(other[j], other[i]) && other[a].Add?
      ensures ClearedBetween(other, j, i)
    {
      assert SameKey(run[j], run[i]) && run[a].Add?;
      ShapeKeepsClearing(run, other, j, i);
    }
  }

  /** `run` with every added pattern rejected for want of a name, except that position `a` adds `p`. */
  ghost function AddsOnly(run: seq<Op>, a: nat, p: Pattern): (r: seq<Op>)
    requires a < |run| && run[a].Add?
    ensures SameShape(run, r)
  {
    seq(|run|, k requires 0 <= k < |run| =>
      if !run[k].Add? then run[k] else if k == a then Add(p) else Add(p.(name := "")))
  }

  lemma PatternsOfNext(compile: Compiler, m: Memory, op: Op)
    ensures Next(compile, m, op).patterns ==
            if op.Add? && Accepted(compile, op.p) then m.patterns[op.p.name := op.p] else m.patterns
  {
  }

  lemma OneIsAccepted(compile: Compiler, run: seq<Op>, a: nat, p: Pattern, k: nat)
    requires a < |run| && run[a].Add? && Accepted(compile, p) && k < |run|
    ensures var op := AddsOnly(run, a, p)[k];
            if k == a then op == Add(p) else !(op.Add? && Accepted(compile, op.p))
  {
  }

  lemma {:induction false} PatternsOfAddsOnly(compile: Compiler, m: Memory, run: seq<Op>, a: nat, p: Pattern,
                                              k: nat)
    requires a < |run| && run[a].Add? && Accepted(compile, p) && k <= |run|
    ensures After(compile, m, AddsOnly(run, a, p)[..k]).patterns ==
            if k <= a then m.patterns else m.patterns[p.name := p]
  {
    if k > 0 {
      var other := AddsOnly(run, a, p);
      PatternsOfAddsOnly(compile, m, run, a, p, k - 1);
      AfterStep(compile, m, other, k - 1);
      OneIsAccepted(compile, run, a, p, k - 1);
      PatternsOfNext(compile, After(compile, m, other[..k - 1]), other[k - 1]);
    }
  }

  /** No text gets two patterns to apply. */
  ghost predicate Separates(compile: Compiler, m: Memory) {
    forall t, n, k |
      n in m.patterns && Applies(compile, m.patterns[n], t, "")
      && k in m.patterns && Applies(compile, m.patterns[k], t, "") :: n == k
  }

  lemma AppliesInAny(compile: Compiler, p: Pattern, t: string, c: string)
    ensures Applies(compile, p, t, c) ==> Applies(compile, p, t, "")
  {
  }

  /** Where patterns are separate, adding one more can turn any answer round. */
  lemma AnswerCanTurn(compile: Compiler, m: Memory, t: string, c: string) returns (p: Pattern)
    requires IsRe2(compile) && IsStart(compile, m) && Separates(compile, m)
    ensures Accepted(compile, p)
    ensures Verdict(compile, m.patterns[p.name := p], t, c) != Verdict(compile, m.patterns, t, c)
  {
    if Verdict(compile, m.patterns, t, c) {
      var n :| n in m.patterns && Applies(compile, m.patterns[n], t, c);
      p := m.patterns[n].(condition := Some(_ => false));
      AppliesInAny(compile, m.patterns[n], t, c);
      forall k | k in m.patterns && k != n
        ensures !Applies(compile, m.patterns[k], t, c)
      {
        AppliesInAny(compile, m.patterns[k], t, c);
      }
    } else {
      p := Pattern("p", "", c, 0, None);
      EmptyMatchesAll(compile, p, t);
      assert Applies(compile, m.patterns[p.name := p][p.name], t, c);
    }
  }

  /** A question asked on both sides of an AddPattern without a clearing can be answered wrongly. */
  lemma UnclearedAnswersAreStale(compile: Compiler, m: Memory, run: seq<Op>, j: nat, a: nat, i: nat, p: Pattern)
    requires m.approved == map[] && j < a < i < |run| && run[j] == run[i] && run[i].Match? && run[a].Add?
    requires !ClearedBetween(run, j, i) && Accepted(compile, p)
    requires Verdict(compile, m.patterns[p.name := p], run[i].target, run[i].category)
             != Verdict(compile, m.patterns, run[i].target, run[i].category)
    requires forall k :: 0 <= k < i && SameKey(run[k], run[i]) ==> run[k] == run[i]
    ensures !Coherent(compile, m, AddsOnly(run, a, p))
  {
    var other := AddsOnly(run, a, p);
    assert AskedAt(other, Key(run[i].target, run[i].category), j, i);
    var f := MatchAnswersTheFirstSearch(compile, m, other, i);
    assert SameKey(run[f], run[i]);
    PatternsOfAddsOnly(compile, m, run, a, p, f);
    PatternsOfAddsOnly(compile, m, run, a, p, i);
  }

  lemma UndisciplinedCanFail(compile: Compiler, m: Memory, cats: iset<string>, run: seq<Op>)
    returns (other: seq<Op>)
    requires IsRe2(compile) && IsStart(compile, m) && Separates(compile, m)
    requires AsksWithin(cats, run) && NoClash(cats) && !Disciplined(run)
    ensures SameShape(run, other) && !Coherent(compile, m, other)
  {
    var j, a, i :| 0 <= j < a < i < |run| && SameKey(run[j], run[i]) && run[a].Add?
      && !ClearedBetween(run, j, i);
    var p := AnswerCanTurn(compile, m, run[i].target, run[i].category);
    forall k | 0 <= k < i && SameKey(run[k], run[i])
      ensures run[k] == run[i]
    {
      SameQuestion(cats, run, k, i);
    }
    UnclearedAnswersAreStale(compile, m, run, j, a, i, p);
    other := AddsOnly(run, a, p);
  }

  lemma DisciplineSuffices(cats: iset<string>, run: seq<Op>, compile: Compiler, other: seq<Op>)
    requires AsksWithin(cats, run) && NoClash(cats) && Disciplined(run) && SameShape(run, other)
    ensures Coherent(compile, Start(compile), other)
  {
    StartIsStart(compile);
    ShapeKeepsDiscipline(run, other);
    DisciplinedRunsAreCoherent(compile, Start(compile), other, cats);
  }

  /** Over every RE2 library that keeps the default patterns apart, clearing as disciplined runs do is
      exactly what coherence takes, whatever patterns are added. */
  lemma DisciplineIsNeeded(compile: Compiler, cats: iset<string>, run: seq<Op>)
    requires IsRe2(compile) && Separates(compile, Start(compile))
    requires AsksWithin(cats, run) && NoClash(cats)
    ensures (forall other :: SameShape(run, other) ==> Coherent(compile, Start(compile), other))
            <==> Disciplined(run)
  {
    if Disciplined(run) {
      forall other | SameShape(run, other)
        ensures Coherent(compile, Start(compile), other)
      {
        DisciplineSuffices(cats, run, compile, other);
      }
    } else {
      StartIsStart(compile);
      var other := UndisciplinedCanFail(compile, Start(compile), cats, run);
    }
  }

  // ---------------------------------------------------------------------------------------------
  // A library to which all of this applies
  // ---------------------------------------------------------------------------------------------

  /** The library that knows the glob compiler's fragment and rejects everything else. */
  ghost function Fragment(s: string): Option<Predicate> {
    match Parse(s)
    case None => None
    case Some(re) => Some(t => MatchString(re, t))
  }

  lemma FragmentIsRe2()
    ensures IsRe2(Fragment)
  {
  }

  predicate IsPlain(g: string) { forall i :: 0 <= i < |g| ==> IsAlnum(g[i]) || g[i] == '_' }

  lemma {:induction false} PlainStandsForItself(g: string, t: string)
    requires IsPlain(g)
    ensures Emit(g) == g && (GlobMatch(g, t) <==> t == g)
    decreases |g|
  {
    if g != "" {
      PlainStandsForItself(g[1..], if t == "" then "" else t[1..]);
      assert g == [g[0]] + g[1..] && (t != "" ==> t == [t[0]] + t[1..]);
    }
  }

  lemma AnchoredPlainMatches(g: string, t: string)
    requires IsPlain(g)
    ensures Parse("^" + g + "$").Some?
    ensures MatchString(Parse("^" + g + "$").value, t) <==> t == g
  {
    PlainStandsForItself(g, t);
    CompiledParses(g);
    CompiledMatches(g, t);
  }

  /** A parenthesis that is not escaped is outside the fragment. */
  lemma {:induction false} ParenIsOutside(s: string, i: nat)
    requires i < |s| && s[i] == '(' && (i == 0 || s[i - 1] != '\\')
    ensures Parse(s).None?
    decreases |s|
  {
    var atom := ParseAtom(s);
    if atom.Some? {
      var n := atom.value.1;
      var next := if n < |s| && s[n] == '*' then n + 1 else n;
      assert next <= i;
      ParenIsOutside(s[next..], i - next);
    }
  }

  predicate HasGroup(s: string) {
    exists i :: 0 < i < |s| && s[i] == '(' && s[i - 1] != '\\'
  }

  lemma GroupedDefault(k: nat)
    requires k == 0 || k == 1 || k == 3 || k == 6
    ensures HasGroup(DefaultPatterns()[k].pattern)
  {
    var s := DefaultPatterns()[k].pattern;
    if k == 0 || k == 6 {
      assert s[1] == '(' && s[0] == '^';
    } else if k == 1 {
      assert s[5] == '(' && s[4] == '.';
    } else {
      assert s[5] == '(' && s[4] == '_';
    }
  }

  /** The name of the default pattern that is plain text `g` between anchors. */
  function NameFor(g: string): string { if g == "list_tools" then "tool_list_tools" else g }

  lemma NamedDefault(k: nat) returns (g: string)
    requires k == 2 || k == 4 || k == 5
    ensures var p := DefaultPatterns()[k]; IsPlain(g) && p.pattern == "^" + g + "$" && p.name == NameFor(g)
  {
    g := if k == 2 then "list_tools" else if k == 4 then "system_info" else "list_directory";
  }

  lemma GroupsAreOutside(p: Pattern)
    requires HasGroup(p.pattern) && "^" <= p.pattern
    ensures Compiled(Fragment, p).None?
  {
    var i :| 0 < i < |p.pattern| && p.pattern[i] == '(' && p.pattern[i - 1] != '\\';
    ParenIsOutside(p.pattern, i);
  }

  lemma NamedMatchesItself(p: Pattern, g: string, t: string)
    requires IsPlain(g) && p.pattern == "^" + g + "$"
    requires Compiled(Fragment, p).Some? && Compiled(Fragment, p).value(t)
    ensures t == g
  {
    AnchoredPlainMatches(g, t);
  }

  /** In the fragment a text decides which default pattern applies to it. */
  lemma DefaultsInFragment(p: Pattern, t: string)
    requires p in DefaultPatterns() && Applies(Fragment, p, t, "")
    ensures p.name == NameFor(t)
  {
    var k :| 0 <= k < 7 && p == DefaultPatterns()[k];
    if k == 2 || k == 4 || k == 5 {
      var g := NamedDefault(k);
      NamedMatchesItself(p, g, t);
    } else {
      GroupedDefault(k);
      GroupsAreOutside(p);
    }
  }

  lemma FragmentSeparates()
    ensures Separates(Fragment, Start(Fragment))
  {
    var m := Start(Fragment);
    RegisteredPatterns(Fragment, DefaultPatterns());
    forall t, n, k |
      n in m.patterns && Applies(Fragment, m.patterns[n], t, "")
      && k in m.patterns && Applies(Fragment, m.patterns[k], t, "")
      ensures n == k
    {
      DefaultsInFragment(m.patterns[n], t);
      DefaultsInFragment(m.patterns[k], t);
    }
  }

  /** For every sequence of calls: it is coherent over all RE2 libraries and all patterns it may add exactly
      when it clears the cache as disciplined runs do. */
  lemma DisciplineIsExact(cats: iset<string>, run: seq<Op>)
    requires AsksWithin(cats, run) && NoClash(cats)
    ensures (forall compile, other :: IsRe2(compile) && SameShape(run, other) ==>
               Coherent(compile, Start(compile), other))
            <==> Disciplined(run)
  {
    if Disciplined(run) {
      forall compile, other | SameShape(run, other)
        ensures Coherent(compile, Start(compile), other)
      {
        DisciplineSuffices(cats, run, compile, other);
      }
    } else {
      FragmentIsRe2();
      FragmentSeparates();
      DisciplineIsNeeded(Fragment, cats, run);
    }
  }

  // ---------------------------------------------------------------------------------------------
  // What a new matcher approves
  // ---------------------------------------------------------------------------------------------

  /** Patterns with different names do not displace each other. */
  lemma {:induction false} RegisteredStays(compile: Compiler, ps: seq<Pattern>, k: nat)
    requires k < |ps| && Accepted(compile, ps[k])
    requires forall i :: k < i < |ps| ==> ps[i].name != ps[k].name
    ensures ps[k].name in Registered(compile, ps).patterns && Registered(compile, ps).patterns[ps[k].name] == ps[k]
    decreases |ps|
  {
    if k < |ps| - 1 {
      RegisteredStays(compile, ps[..|ps| - 1], k);
    }
  }

  lemma DefaultNamesDiffer(k: nat, i: nat)
    requires k < i < |DefaultPatterns()|
    ensures DefaultPatterns()[i].name != DefaultPatterns()[k].name
  {
  }

  /** Three tool calls that no other default pattern is needed for are approved from the start, over every RE2
      library. */
  lemma NewMatcherApproves(compile: Compiler, t: string)
    requires IsRe2(compile)
    requires t == "list_tools" || t == "system_info" || t == "list_directory"
    ensures Verdict(compile, Start(compile).patterns, t, "tool_call")
  {
    var k := if t == "list_tools" then 2 else if t == "system_info" then 4 else 5;
    var p := NamedPattern(k, t);
    PlainPatternTests(compile, p, t);
    forall i | k < i < |DefaultPatterns()|
      ensures DefaultPatterns()[i].name != p.name
    {
      DefaultNamesDiffer(k, i);
    }
    RegisteredStays(compile, DefaultPatterns(), k);
  }

  lemma NamedPattern(k: nat, t: string) returns (p: Pattern)
    requires (k == 2 && t == "list_tools") || (k == 4 && t == "system_info") || (k == 5 && t == "list_directory")
    ensures k < |DefaultPatterns()| && p == DefaultPatterns()[k] && p.name != "" && p.category == "tool_call"
    ensures p.condition == None && IsPlain(t) && p.pattern == "^" + t + "$"
  {
    p := DefaultPatterns()[k];
  }

  lemma PlainPatternTests(compile: Compiler, p: Pattern, t: string)
    requires IsRe2(compile) && IsPlain(t) && p.pattern == "^" + t + "$" && p.name != ""
    requires p.category == "tool_call" && p.condition == None
    ensures Accepted(compile, p) && Applies(compile, p, t, "tool_call")
  {
    AnchoredPlainMatches(t, t);
  }

  /** Outside file reads and tool calls a new matcher approves nothing. */
  lemma NewMatcherKnowsTwoCategories(compile: Compiler, t: string, c: string)
    requires c != "" && c != "file_read" && c != "tool_call"
    ensures !Verdict(compile, Start(compile).patterns, t, c)
  {
    StartIsStart(compile);
  }

  /** The source files it lets read lie under one of eleven directories. */
  lemma SourceReadsAreSafe(compile: Compiler, p: Pattern, t: string, c: string)
    requires p in DefaultPatterns() && p.name == "read_src_files" && Applies(compile, p, t, c)
    ensures || "src/" <= t || "internal/" <= t || "pkg/" <= t || "lib/" <= t || "test/" <= t || "tests/" <= t
            || "vendor/" <= t || "node_modules/" <= t || "docs/" <= t || "examples/" <= t || ".github/" <= t
  {
    ReadsAreConditional(p);
    SafeDirectoriesAre(t);
  }

  lemma ReadsAreConditional(p: Pattern)
    requires p in DefaultPatterns() && p.name == "read_src_files"
    ensures p.condition == Some(IsSafeDirectory)
  {
  }

  lemma SafeDirectoriesAre(t: string)
    ensures IsSafeDirectory(t) <==>
            || "src/" <= t || "internal/" <= t || "pkg/" <= t || "lib/" <= t || "test/" <= t || "tests/" <= t
            || "vendor/" <= t || "node_modules/" <= t || "docs/" <= t || "examples/" <= t || ".github/" <= t
  {
    var ds := SAFE_DIRECTORIES;
    assert ds[0] + "/" == "src/" && ds[1] + "/" == "internal/" && ds[2] + "/" == "pkg/" && ds[3] + "/" == "lib/";
    assert ds[4] + "/" == "test/" && ds[5] + "/" == "tests/" && ds[6] + "/" == "vendor/";
    assert ds[7] + "/" == "node_modules/" && ds[8] + "/" == "docs/" && ds[9] + "/" == "examples/";
    assert ds[10] + "/" == ".github/";
  }
}
