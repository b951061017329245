/** The selection of memory parts for the prompt: trimmed, deduplicated by hash and capped by cost. */
module MemoryPrune {
  import opened Text
  import opened Utf8

  const CHARS_PER_TOKEN := 4

  /** Bytes divided by four, rounded up. */
  function Cost(p: string): nat { (|Encode(p)| + CHARS_PER_TOKEN - 1) / CHARS_PER_TOKEN }

  /** A token stands for four bytes, the last one possibly for fewer. */
  lemma TokensCoverBytes(p: string)
    ensures 4 * Cost(p) - 4 < |Encode(p)| <= 4 * Cost(p)
  {
  }

  function TotalCost(parts: seq<string>): nat {
    if parts == [] then 0 else TotalCost(parts[..|parts| - 1]) + Cost(parts[|parts| - 1])
  }

  function TrimAll(parts: seq<string>): (texts: seq<string>)
    ensures |texts| == |parts| && forall i :: 0 <= i < |parts| ==> texts[i] == TrimSpace(parts[i])
  {
    seq(|parts|, i requires 0 <= i < |parts| => TrimSpace(parts[i]))
  }

  /** The digests of the texts that are not blank. */
  function Digests(h: string -> string, texts: seq<string>): set<string> {
    set i | 0 <= i < |texts| && texts[i] != "" :: h(texts[i])
  }

  /** Texts are considered in order; one whose digest occurred before, kept or not, is passed over. */
  function Select(h: string -> string, texts: seq<string>, maxTokens: int): seq<string> {
    if texts == [] then []
    else Consider(h, texts[..|texts| - 1], Select(h, texts[..|texts| - 1], maxTokens), texts[|texts| - 1], maxTokens)
  }

  function Consider(h: string -> string, before: seq<string>, kept: seq<string>, p: string, maxTokens: int)
    : (r: seq<string>)
    ensures r == kept || r == kept + [p]
  {
    if p == "" || h(p) in Digests(h, before) || TotalCost(kept) + Cost(p) > maxTokens then kept
    else kept + [p]
  }

  lemma DigestsStep(h: string -> string, texts: seq<string>, i: nat)
    requires i < |texts|
    ensures Digests(h, texts[..i + 1]) == Digests(h, texts[..i]) + if texts[i] == "" then {} else {h(texts[i])}
  {
    var a, b := texts[..i], texts[..i + 1];
    assert forall k :: 0 <= k < i ==> b[k] == a[k];
    assert b[i] == texts[i];
  }

  lemma SelectStep(h: string -> string, texts: seq<string>, i: nat, maxTokens: int)
    requires i < |texts|
    ensures Select(h, texts[..i + 1], maxTokens)
            == Consider(h, texts[..i], Select(h, texts[..i], maxTokens), texts[i], maxTokens)
  {
    assert texts[..i + 1][..i] == texts[..i];
  }

  lemma TotalCostSnoc(kept: seq<string>, p: string)
    ensures TotalCost(kept + [p]) == TotalCost(kept) + Cost(p)
  {
    assert (kept + [p])[..|kept|] == kept;
  }

  method PruneMemoryParts(h: string -> string, parts: seq<string>, maxTokens: int) returns (result: seq<string>)
    ensures result == Select(h, TrimAll(parts), maxTokens)
  {
    ghost var texts := TrimAll(parts);
    var seen: set<string> := {};
    var used := 0;
    result := [];
    for i := 0 to |parts|
      invariant result == Select(h, texts[..i], maxTokens)
      invariant seen == Digests(h, texts[..i])
      invariant used == TotalCost(result)
    {
      DigestsStep(h, texts, i);
      SelectStep(h, texts, i, maxTokens);
      var p := TrimSpace(parts[i]);
      if p == "" {
        continue;
      }
      if h(p) in seen {
        continue;
      }
      seen := seen + {h(p)};
      var cost := (|Encode(p)| + CHARS_PER_TOKEN - 1) / CHARS_PER_TOKEN;
      assert cost == Cost(p);
      TotalCostSnoc(result, p);
      if used + cost > maxTokens {
        continue;
      }
      result := result + [p];
      used := used + cost;
    }
    assert texts[..|parts|] == texts;
  }

  // ---------------------------------------------------------------------------------------------
  // What is selected
  // ---------------------------------------------------------------------------------------------

  lemma {:induction false} SelectionFitsBudget(h: string -> string, texts: seq<string>, maxTokens: int)
    ensures Select(h, texts, maxTokens) == [] || TotalCost(Select(h, texts, maxTokens)) <= maxTokens
    decreases |texts|
  {
    if texts != [] {
      SelectionFitsBudget(h, texts[..|texts| - 1], maxTokens);
    }
  }

  function TotalBytes(parts: seq<string>): nat {
    if parts == [] then 0 else TotalBytes(parts[..|parts| - 1]) + |Encode(parts[|parts| - 1])|
  }

  lemma {:induction false} CostCoversBytes(parts: seq<string>)
    ensures TotalBytes(parts) <= 4 * TotalCost(parts) <= TotalBytes(parts) + 3 * |parts|
    decreases |parts|
  {
    if parts != [] {
      CostCoversBytes(parts[..|parts| - 1]);
      TokensCoverBytes(parts[|parts| - 1]);
    }
  }

  /** In bytes: the selection takes at most four for every token of the budget. */
  lemma SelectionFitsBytes(h: string -> string, texts: seq<string>, maxTokens: int)
    ensures Select(h, texts, maxTokens) == [] || TotalBytes(Select(h, texts, maxTokens)) <= 4 * maxTokens
  {
    SelectionFitsBudget(h, texts, maxTokens);
    CostCoversBytes(Select(h, texts, maxTokens));
  }

  /** Part after part: one is selected exactly when it is not blank, no earlier part that is not blank has its
      digest, selected or not, and it still fits the budget. */
  lemma PartIsSelectedIff(h: string -> string, texts: seq<string>, i: nat, maxTokens: int)
    requires i < |texts|
    ensures var kept := Select(h, texts[..i], maxTokens);
            var fits := texts[i] != ""
                        && (forall j :: 0 <= j < i && texts[j] != "" ==> h(texts[j]) != h(texts[i]))
                        && TotalCost(kept) + Cost(texts[i]) <= maxTokens;
            Select(h, texts[..i + 1], maxTokens) == if fits then kept + [texts[i]] else kept
  {
    SelectStep(h, texts, i, maxTokens);
    var before := texts[..i];
    assert forall j :: 0 <= j < i ==> before[j] == texts[j];
  }

  /** A single part is selected exactly when it is not blank and fits. */
  lemma OnePart(h: string -> string, p: string, maxTokens: int)
    ensures Select(h, [p], maxTokens) == if p != "" && Cost(p) <= maxTokens then [p] else []
  {
    assert [p][..0] == [];
  }

  /** The result is made of the texts at increasing positions that are not blank. */
  ghost predicate TakenFrom(texts: seq<string>, picks: seq<nat>, result: seq<string>) {
    && |picks| == |result|
    && (forall i, j :: 0 <= i < j < |picks| ==> picks[i] < picks[j])
    && (forall i :: 0 <= i < |picks| ==> picks[i] < |texts| && result[i] == texts[picks[i]] && result[i] != "")
  }

  lemma TakeOneMore(texts: seq<string>, picks: seq<nat>, result: seq<string>)
    requires texts != [] && TakenFrom(texts[..|texts| - 1], picks, result)
    ensures TakenFrom(texts, picks, result)
    ensures texts[|texts| - 1] != "" ==> TakenFrom(texts, picks + [|texts| - 1], result + [texts[|texts| - 1]])
  {
  }

  lemma {:induction false} SelectionKeepsOrder(h: string -> string, texts: seq<string>, maxTokens: int)
    returns (picks: seq<nat>)
    ensures TakenFrom(texts, picks, Select(h, texts, maxTokens))
    decreases |texts|
  {
    if texts == [] {
      picks := [];
    } else {
      var n := |texts| - 1;
      var kept := Select(h, texts[..n], maxTokens);
      picks := SelectionKeepsOrder(h, texts[..n], maxTokens);
      TakeOneMore(texts, picks, kept);
      if Consider(h, texts[..n], kept, texts[n], maxTokens) != kept {
        picks := picks + [n];
      }
    }
  }

  lemma {:induction false} SelectionIsSeen(h: string -> string, texts: seq<string>, maxTokens: int)
    ensures forall p :: p in Select(h, texts, maxTokens) ==> h(p) in Digests(h, texts)
    decreases |texts|
  {
    if texts != [] {
      var n := |texts| - 1;
      SelectionIsSeen(h, texts[..n], maxTokens);
      DigestsStep(h, texts, n);
      assert texts[..n + 1] == texts;
    }
  }

  ghost predicate DistinctDigests(h: string -> string, r: seq<string>) {
    forall i, j :: 0 <= i < j < |r| ==> h(r[i]) != h(r[j])
  }

  lemma OneMoreDigest(h: string -> string, r: seq<string>, p: string)
    requires DistinctDigests(h, r) && forall q :: q in r ==> h(q) != h(p)
    ensures DistinctDigests(h, r + [p])
  {
  }

  /** No two selected parts share a digest, so none is selected twice. */
  lemma {:induction false} SelectionIsDistinct(h: string -> string, texts: seq<string>, maxTokens: int)
    ensures DistinctDigests(h, Select(h, texts, maxTokens))
    decreases |texts|
  {
    if texts != [] {
      var n := |texts| - 1;
      var kept := Select(h, texts[..n], maxTokens);
      SelectionIsDistinct(h, texts[..n], maxTokens);
      SelectionIsSeen(h, texts[..n], maxTokens);
      if Consider(h, texts[..n], kept, texts[n], maxTokens) != kept {
        OneMoreDigest(h, kept, texts[n]);
      }
    }
  }

  /** Different texts have different digests. */
  ghost predicate CollisionFree(h: string -> string, texts: seq<string>) {
    forall i, j :: 0 <= i < |texts| && 0 <= j < |texts| && h(texts[i]) == h(texts[j]) ==> texts[i] == texts[j]
  }

  /** Considering one more text never frees any budget. */
  lemma ConsiderGrows(h: string -> string, before: seq<string>, kept: seq<string>, p: string, maxTokens: int)
    ensures var r := Consider(h, before, kept, p, maxTokens);
            && TotalCost(kept) <= TotalCost(r)
            && (forall q :: q in kept ==> q in r)
            && (p != "" && h(p) !in Digests(h, before) ==> p in r || TotalCost(r) + Cost(p) > maxTokens)
  {
    TotalCostSnoc(kept, p);
  }

  /** The selection is maximal: a part left out would break the budget even at the end, although a
      part over the budget also shuts out its later copies. */
  lemma {:induction false} SelectionIsMaximal(h: string -> string, texts: seq<string>, maxTokens: int, i: nat)
    requires CollisionFree(h, texts) && i < |texts| && texts[i] != ""
    ensures var r := Select(h, texts, maxTokens);
            texts[i] in r || TotalCost(r) + Cost(texts[i]) > maxTokens
    decreases |texts|
  {
    var n := |texts| - 1;
    var init := texts[..n];
    assert CollisionFree(h, init) by {
      assert forall k :: 0 <= k < n ==> init[k] == texts[k];
    }
    var kept := Select(h, init, maxTokens);
    var k := i;
    if i == n && h(texts[n]) in Digests(h, init) {
      k :| 0 <= k < n && init[k] != "" && h(init[k]) == h(texts[n]);
      assert texts[k] == texts[n];
    }
    if k < n {
      SelectionIsMaximal(h, init, maxTokens, k);
    }
    assert texts[k] == texts[i];
    assert Select(h, texts, maxTokens) == Consider(h, init, kept, texts[n], maxTokens);
    ConsiderGrows(h, init, kept, texts[n], maxTokens);
  }
}
