/** The loop guard's window of approved evolutions, identified by the hash of their normalised text. */
module LoopGuard {
  import opened Common
  import opened Normalize

  datatype Evolution = Evolution(id: string, domain: string, change: string, outcome: real, semanticHash: string)

  function Hashed(hash: string -> string, lower: char -> char, e: Evolution): Evolution {
    e.(semanticHash := hash(Normalized(e.change, lower)))
  }

  /** One record more, and the oldest dropped once the window is exceeded. */
  function Recorded(size: int, window: seq<Evolution>, e: Evolution): seq<Evolution> {
    var longer := window + [e];
    if |longer| > size then longer[1..] else longer
  }

  class Guard {
    const windowSize: nat
    const hash: string -> string
    const lower: char -> char
    var recentEvolutions: seq<Evolution>

    constructor (windowSize: nat, hash: string -> string, lower: char -> char)
      ensures recentEvolutions == [] && this.windowSize == windowSize
      ensures this.hash == hash && this.lower == lower
    {
      this.windowSize, this.hash, this.lower, recentEvolutions := windowSize, hash, lower, [];
    }

    /** Making the window panics on a negative size: None. */
    static method NewLoopGuard(windowSize: int, hash: string -> string, lower: char -> char)
      returns (r: Option<Guard>)
      ensures r.None? <==> windowSize < 0
      ensures r.Some? ==> fresh(r.value) && r.value.recentEvolutions == [] && r.value.windowSize == windowSize
                          && r.value.hash == hash && r.value.lower == lower
    {
      if windowSize < 0 {
        return None;
      }
      var g := new Guard(windowSize, hash, lower);
      return Some(g);
    }

    /** Keeps the window at most as long as its size, so the oldest record goes when it is full. */
    method RecordApprovedEvolution(record: Evolution)
      modifies this
      ensures recentEvolutions == Recorded(windowSize, old(recentEvolutions), Hashed(hash, lower, record))
    {
      var text := NormalizeText(record.change, lower);
      var hashed := record.(semanticHash := hash(text));
      recentEvolutions := recentEvolutions + [hashed];
      if |recentEvolutions| > windowSize {
        recentEvolutions := recentEvolutions[1..];
      }
    }
  }

  function AfterAll(size: int, run: seq<Evolution>): seq<Evolution> {
    if run == [] then [] else Recorded(size, AfterAll(size, run[..|run| - 1]), run[|run| - 1])
  }

  /** The last `size` records, all of them when there are fewer, none for a size of 0 or less. */
  function Latest(size: int, run: seq<Evolution>): seq<Evolution> {
    if size <= 0 then [] else if |run| <= size then run else run[|run| - size..]
  }

  lemma ShiftTail(run: seq<Evolution>, e: Evolution, k: nat)
    requires k < |run|
    ensures (run[k..] + [e])[1..] == (run + [e])[k + 1..]
  {
  }

  lemma LatestStep(size: int, run: seq<Evolution>, e: Evolution)
    ensures Recorded(size, Latest(size, run), e) == Latest(size, run + [e])
  {
    if 0 < size < |run| {
      ShiftTail(run, e, |run| - size);
    } else if 0 < size == |run| {
      assert run[0..] == run;
      ShiftTail(run, e, 0);
    }
  }

  /** After any number of records the window holds exactly the latest ones, in order. */
  lemma {:induction false} WindowIsLatest(size: int, run: seq<Evolution>)
    ensures AfterAll(size, run) == Latest(size, run)
    decreases |run|
  {
    if run != [] {
      var init, last := run[..|run| - 1], run[|run| - 1];
      WindowIsLatest(size, init);
      LatestStep(size, init, last);
      assert run == init + [last];
    }
  }

  /** With an idempotent lower-casing, a change and its normalised form are the same evolution. */
  lemma NormalFormsShareAHash(hash: string -> string, lower: char -> char, e: Evolution)
    requires Settles(lower)
    ensures Hashed(hash, lower, e.(change := Normalized(e.change, lower))).semanticHash
            == Hashed(hash, lower, e).semanticHash
  {
    NormalizeIsIdempotent(e.change, lower);
  }
}
