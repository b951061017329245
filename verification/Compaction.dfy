/**
 Stage 1 of the tiered compactor: tool results longer than the limit are cut, at a line end when one
 lies in the second half of what is kept, and closed with a notice.  Contents are bytes, so the cut may
 fall inside a character.
 */
module Compaction {
  import opened Common
  import opened Utf8

  type Bytes = seq<byte>

  const NL := 10 as byte

  const NOTICE_HEAD := "[... output truncated by TieredCompactor — "
  const NOTICE_TAIL := "full result omitted to save context ...]"

  lemma HeadIsOneLine()
    ensures '\n' !in NOTICE_HEAD
  {
  }

  lemma TailIsOneLine()
    ensures '\n' !in NOTICE_TAIL
  {
  }

  /** The text of the notice. */
  method TruncatedNotice() returns (s: string)
    ensures s == NOTICE_HEAD + NOTICE_TAIL && '\n' !in s
  {
    HeadIsOneLine();
    TailIsOneLine();
    s := NOTICE_HEAD + NOTICE_TAIL;
  }

  /** The notice put after a cut: a line end and a line of text. */
  function SuffixOf(notice: string): Bytes { [NL] + Encode(notice) }

  /** All that trimming needs of the notice: it begins with its only line end. */
  predicate IsNotice(suffix: Bytes) { suffix != [] && suffix[0] == NL && NL !in suffix[1..] }

  lemma {:induction false} NoBreakInEncoding(s: string)
    requires '\n' !in s
    ensures NL !in Encode(s)
  {
    if s != "" {
      NoBreakInEncoding(s[1..]);
      var bs := EncodeRune(s[0]);
      assert s[0] in s;
      if IsAscii(s[0]) {
        assert bs == [bs[0]] && bs[0] as int == s[0] as int;
      }
      assert NL !in bs;
    }
  }

  lemma SuffixIsNotice(notice: string)
    requires '\n' !in notice
    ensures IsNotice(SuffixOf(notice))
  {
    NoBreakInEncoding(notice);
    assert SuffixOf(notice)[1..] == Encode(notice);
  }

  // ---------------------------------------------------------------------------------------------
  // One message
  // ---------------------------------------------------------------------------------------------

  /** `strings.LastIndexByte(s, '\n')`. */
  method LastNewline(s: Bytes) returns (nl: int)
    ensures -1 <= nl < |s|
    ensures nl >= 0 ==> s[nl] == NL
    ensures forall i :: nl < i < |s| ==> s[i] != NL
  {
    nl := |s| - 1;
    while nl >= 0 && s[nl] != NL
      invariant -1 <= nl < |s|
      invariant forall i :: nl < i < |s| ==> s[i] != NL
    {
      nl := nl - 1;
    }
  }

  /** Where a content is cut: at the last line end before the limit if that lies past the middle,
      otherwise at the limit. */
  ghost predicate IsCut(content: Bytes, limit: nat, n: nat)
    requires |content| > limit
  {
    && n <= limit
    && (n < limit ==> content[n] == NL && n > limit / 2)
    && (forall i :: limit / 2 < i < limit && (n < i || n == limit) ==> content[i] != NL)
  }

  lemma CutIsUnique(content: Bytes, limit: nat, n: nat, m: nat)
    requires |content| > limit && IsCut(content, limit, n) && IsCut(content, limit, m)
    ensures n == m
  {
  }

  /** `r` is the trimmed form of `content`. */
  ghost predicate IsTrimmed(content: Bytes, limit: nat, suffix: Bytes, r: Bytes) {
    if |content| <= limit then r == content
    else exists n: nat :: IsCut(content, limit, n) && r == content[..n] + suffix
  }

  method TrimContent(content: Bytes, limit: nat, suffix: Bytes) returns (r: Bytes)
    requires |content| > limit
    ensures IsTrimmed(content, limit, suffix, r)
  {
    var preview := content[..limit];
    var nl := LastNewline(preview);
    ghost var n: nat := if nl > limit / 2 then nl else limit;
    assert forall i :: 0 <= i < limit ==> preview[i] == content[i];
    assert IsCut(content, limit, n);
    if nl > limit / 2 {
      preview := preview[..nl];
    }
    assert preview == content[..n];
    r := preview + suffix;
  }

  // ---------------------------------------------------------------------------------------------
  // The history
  // ---------------------------------------------------------------------------------------------

  datatype Message = Message(role: string, content: Bytes)

  class History {
    var messages: seq<Message>

    constructor (messages: seq<Message>)
      ensures this.messages == messages
    {
      this.messages := messages;
    }
  }

  /** Only a tool result changes, and to its trimmed form. */
  ghost predicate IsTrimmedMessage(m: Message, limit: nat, suffix: Bytes, m': Message) {
    && m'.role == m.role
    && if m.role == "tool" then IsTrimmed(m.content, limit, suffix, m'.content) else m' == m
  }

  ghost predicate AreTrimmed(before: seq<Message>, limit: nat, suffix: Bytes, after: seq<Message>) {
    && |after| == |before|
    && forall i :: 0 <= i < |before| ==> IsTrimmedMessage(before[i], limit, suffix, after[i])
  }

  predicate IsLong(m: Message, limit: nat) { m.role == "tool" && |m.content| > limit }

  function CountLong(messages: seq<Message>, limit: nat): nat {
    if messages == [] then 0
    else CountLong(messages[..|messages| - 1], limit) + if IsLong(messages[|messages| - 1], limit) then 1 else 0
  }

  /** The positions of the tool results over the limit. */
  ghost function LongAt(messages: seq<Message>, limit: nat): set<nat> {
    set i: nat | i < |messages| && messages[i].role == "tool" && |messages[i].content| > limit
  }

  lemma {:induction false} CountLongIsNumber(messages: seq<Message>, limit: nat)
    ensures CountLong(messages, limit) == |LongAt(messages, limit)|
    decreases |messages|
  {
    if messages != [] {
      var n := |messages| - 1;
      CountLongIsNumber(messages[..n], limit);
      assert LongAt(messages, limit) == LongAt(messages[..n], limit) + if IsLong(messages[n], limit) then {n} else {};
    }
  }

  /** Which messages a trim changes: tool results over the limit only, and those to their trimmed form. */
  lemma OnlyLongToolResultsChange(before: seq<Message>, limit: nat, suffix: Bytes, after: seq<Message>, i: nat)
    requires AreTrimmed(before, limit, suffix, after) && i < |before|
    ensures |after| == |before| && after[i].role == before[i].role
    ensures i !in LongAt(before, limit) ==> after[i] == before[i]
    ensures i in LongAt(before, limit) ==> IsTrimmed(before[i].content, limit, suffix, after[i].content)
  {
  }

  class TieredCompactor {
    var softThresholdPct: real
    var hardThresholdPct: real
    var maxToolResultBytes: nat
    const notice: string
    const suffix: Bytes

    constructor ()
      ensures softThresholdPct == 0.75 && hardThresholdPct == 0.90 && maxToolResultBytes == 2048
      ensures notice == NOTICE_HEAD + NOTICE_TAIL
      ensures suffix == SuffixOf(notice) && IsNotice(suffix)
    {
      var text := TruncatedNotice();
      SuffixIsNotice(text);
      softThresholdPct, hardThresholdPct := 0.75, 0.90;
      maxToolResultBytes, notice, suffix := 2048, text, SuffixOf(text);
    }

    method TrimToolResults(history: History) returns (trimCount: nat)
      modifies history
      ensures AreTrimmed(old(history.messages), maxToolResultBytes, suffix, history.messages)
      ensures trimCount == CountLong(old(history.messages), maxToolResultBytes)
    {
      var before := history.messages;
      var msgs := before;
      trimCount := 0;
      for i := 0 to |before|
        invariant |msgs| == |before| && history.messages == before
        invariant forall k :: 0 <= k < i ==> IsTrimmedMessage(before[k], maxToolResultBytes, suffix, msgs[k])
        invariant forall k :: i <= k < |before| ==> msgs[k] == before[k]
        invariant trimCount == CountLong(before[..i], maxToolResultBytes)
        invariant trimCount == 0 ==> msgs == before
      {
        var msg := msgs[i];
        assert before[..i + 1][..i] == before[..i];
        if msg.role == "tool" && |msg.content| > maxToolResultBytes {
          var content := TrimContent(msg.content, maxToolResultBytes, suffix);
          msgs := msgs[i := msg.(content := content)];
          trimCount := trimCount + 1;
        }
      }
      assert before[..|before|] == before;
      if trimCount > 0 {
        history.messages := msgs;
      }
    }

    /** Both stages.  `used` is the context manager's reading, None without a manager, `estimate` the
        share of the window a history takes, and `compress` the compression pipe, None when it is not
        wired; a failed compression leaves the history as it is. */
    method Check(history: History, used: Option<real>, estimate: seq<Message> -> real,
                 compress: Option<seq<Message> -> Option<seq<Message>>>)
      modifies history
      ensures used.None? || used.value < softThresholdPct ==> history.messages == old(history.messages)
      ensures used.Some? && softThresholdPct <= used.value ==>
                exists once :: AreTrimmed(old(history.messages), maxToolResultBytes, suffix, once)
                               && (if hardThresholdPct <= estimate(once) && compress.Some?
                                      && compress.value(once).Some?
                                   then history.messages == compress.value(once).value
                                   else history.messages == once)
    {
      if used.None? || used.value < softThresholdPct {
        return;
      }
      var trimmed := TrimToolResults(history);
      ghost var once := history.messages;
      assert AreTrimmed(old(history.messages), maxToolResultBytes, suffix, once);
      if estimate(history.messages) < hardThresholdPct || compress.None? {
        return;
      }
      var shorter := compress.value(history.messages);
      if shorter.Some? {
        history.messages := shorter.value;
      }
    }
  }

  // ---------------------------------------------------------------------------------------------
  // One pass is enough
  // ---------------------------------------------------------------------------------------------

  /** A second pass cuts what the first one produced at the same place. */
  lemma CutAgain(content: Bytes, limit: nat, suffix: Bytes, n: nat)
    requires IsNotice(suffix) && |content| > limit && IsCut(content, limit, n)
    requires |content[..n] + suffix| > limit
    ensures IsCut(content[..n] + suffix, limit, n)
  {
    var r := content[..n] + suffix;
    forall i | n < i < limit
      ensures r[i] != NL
    {
      assert r[i] == suffix[1..][i - n - 1];
    }
  }

  lemma TrimIsFixpoint(content: Bytes, limit: nat, suffix: Bytes, r: Bytes, r2: Bytes)
    requires IsNotice(suffix)
    requires IsTrimmed(content, limit, suffix, r) && IsTrimmed(r, limit, suffix, r2)
    ensures r2 == r
  {
    if |content| > limit && |r| > limit {
      var n: nat :| IsCut(content, limit, n) && r == content[..n] + suffix;
      CutAgain(content, limit, suffix, n);
      var m: nat :| IsCut(r, limit, m) && r2 == r[..m] + suffix;
      CutIsUnique(r, limit, n, m);
    }
  }

  /** A second trim of the history changes nothing, whatever the limit. */
  lemma SecondTrimChangesNothing(before: seq<Message>, limit: nat, suffix: Bytes,
                                 once: seq<Message>, twice: seq<Message>)
    requires IsNotice(suffix)
    requires AreTrimmed(before, limit, suffix, once) && AreTrimmed(once, limit, suffix, twice)
    ensures twice == once
  {
    forall i | 0 <= i < |once|
      ensures twice[i] == once[i]
    {
      assert IsTrimmedMessage(before[i], limit, suffix, once[i]);
      assert IsTrimmedMessage(once[i], limit, suffix, twice[i]);
      if before[i].role == "tool" {
        TrimIsFixpoint(before[i].content, limit, suffix, once[i].content, twice[i].content);
      }
    }
  }

  /** Trimming a content has one outcome. */
  lemma TrimIsDetermined(content: Bytes, limit: nat, suffix: Bytes, r: Bytes, r': Bytes)
    requires IsTrimmed(content, limit, suffix, r) && IsTrimmed(content, limit, suffix, r')
    ensures r == r'
  {
    if |content| > limit {
      var n: nat :| IsCut(content, limit, n) && r == content[..n] + suffix;
      var m: nat :| IsCut(content, limit, m) && r' == content[..m] + suffix;
      CutIsUnique(content, limit, n, m);
    }
  }

  /** A line end between the middle of the limit and the limit. */
  predicate IsLateBreak(content: Bytes, limit: nat, i: nat) {
    limit / 2 < i < limit && i < |content| && content[i] == NL
  }

  ghost predicate IsLastLateBreak(content: Bytes, limit: nat, i: nat) {
    IsLateBreak(content, limit, i) && forall j: nat :: j > i ==> !IsLateBreak(content, limit, j)
  }

  /** A long content is cut at its last line end between the middle of the limit and the limit, or at the limit
      when it has none there; a short one stays. */
  lemma TrimCutsAtLastLateBreak(content: Bytes, limit: nat, suffix: Bytes, r: Bytes)
    requires IsTrimmed(content, limit, suffix, r)
    ensures |content| <= limit ==> r == content
    ensures |content| > limit && (forall i :: !IsLateBreak(content, limit, i)) ==> r == content[..limit] + suffix
    ensures |content| > limit ==>
              forall i: nat :: IsLastLateBreak(content, limit, i) ==> r == content[..i] + suffix
  {
    if |content| > limit {
      var n: nat :| IsCut(content, limit, n) && r == content[..n] + suffix;
      if n < limit {
        assert IsLateBreak(content, limit, n);
      }
      assert forall i: nat :: IsLastLateBreak(content, limit, i) ==> i == n;
    }
  }

  /** A trimmed content ends at most the notice above the limit. */
  lemma TrimIsBounded(content: Bytes, limit: nat, suffix: Bytes, r: Bytes)
    requires IsTrimmed(content, limit, suffix, r)
    ensures |r| <= limit + |suffix|
  {
  }

  /** A trim makes a content longer exactly when it exceeds the limit by less than the notice and has
      either no late line end or one so late that less than the notice follows it. */
  lemma TrimLengthensIff(content: Bytes, limit: nat, suffix: Bytes, r: Bytes)
    requires IsTrimmed(content, limit, suffix, r)
    ensures |r| > |content| <==>
            && limit < |content| < limit + |suffix|
            && ((forall i :: !IsLateBreak(content, limit, i))
                || (exists i :: IsLateBreak(content, limit, i) && |content| - i < |suffix|))
  {
    if |content| > limit {
      var n: nat :| IsCut(content, limit, n) && r == content[..n] + suffix;
      if n < limit {
        assert IsLateBreak(content, limit, n);
      }
    }
  }

  lemma SuffixIsLong(notice: string)
    requires notice != ""
    ensures |SuffixOf(notice)| >= 2
  {
    assert |EncodeRune(notice[0])| >= 1;
  }

  /** One byte over the limit and no line end: any notice makes the result longer. */
  lemma OneByteOverGrows(limit: nat, notice: string, content: Bytes, r: Bytes)
    requires notice != "" && content == seq(limit + 1, _ => 65 as byte)
    requires IsTrimmed(content, limit, SuffixOf(notice), r)
    ensures |r| > |content|
  {
    SuffixIsLong(notice);
    assert forall i :: !IsLateBreak(content, limit, i);
    TrimLengthensIff(content, limit, SuffixOf(notice), r);
  }
}
