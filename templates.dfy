/** The JSON bodies of the harness are its templates with placeholders
    substituted by String.replace: every non-overlapping occurrence of the
    target, scanned left to right, is replaced. */
module Templates {

  const QuoteIdPlaceholder: string := "${quoteId}"
  const TradeIdPlaceholder: string := "${tradeId}"

  /** t occurs in s starting at position i. */
  predicate MatchAt(s: string, t: string, i: int) {
    0 <= i && i + |t| <= |s| && s[i..i + |t|] == t
  }

  /** Dropping the first character shifts every occurrence one place left. */
  lemma MatchShift(s: string, t: string, i: int)
    requires 0 < |s|
    ensures MatchAt(s[1..], t, i) <==> (0 <= i && MatchAt(s, t, i + 1))
  {
    if 0 <= i && i + |t| <= |s| - 1 {
      assert s[1..][i..i + |t|] == s[i + 1..i + 1 + |t|];
    }
  }

  /** String.replace(target, replacement). An empty target inserts the
      replacement before every character and at the end, as Java does. */
  function ReplaceAll(s: string, target: string, replacement: string): (r: string)
    ensures |replacement| == |target| ==> |r| == |s| + (if |target| == 0 then |replacement| else 0)
    decreases |s|
  {
    if |target| == 0 then
      if |s| == 0 then replacement
      else replacement + [s[0]] + ReplaceAll(s[1..], target, replacement)
    else if |s| < |target| then s
    else if s[..|target|] == target then
      replacement + ReplaceAll(s[|target|..], target, replacement)
    else
      [s[0]] + ReplaceAll(s[1..], target, replacement)
  }

  /** A string in which the target never occurs is left as it is. */
  lemma {:induction false} ReplaceAllNoMatch(s: string, target: string, replacement: string)
    requires 0 < |target|
    requires forall i :: !MatchAt(s, target, i)
    ensures ReplaceAll(s, target, replacement) == s
  {
    if |s| >= |target| {
      assert !MatchAt(s, target, 0);
      forall i ensures !MatchAt(s[1..], target, i) {
        MatchShift(s, target, i);
      }
      ReplaceAllNoMatch(s[1..], target, replacement);
      assert s == [s[0]] + s[1..];
    }
  }

  /** A template with a single hole: the first occurrence of the target is
      right after pre, and none occurs in post, so the result is pre, the
      replacement, post. */
  lemma {:induction false} ReplaceAllOneHole(pre: string, target: string, post: string, replacement: string)
    requires 0 < |target|
    requires forall i :: 0 <= i < |pre| ==> !MatchAt(pre + target + post, target, i)
    requires forall i :: !MatchAt(post, target, i)
    ensures ReplaceAll(pre + target + post, target, replacement) == pre + replacement + post
  {
    var s := pre + target + post;
    if pre == [] {
      assert s == target + post;
      assert s[..|target|] == target;
      assert s[|target|..] == post;
      ReplaceAllNoMatch(post, target, replacement);
    } else {
      assert !MatchAt(s, target, 0);
      assert s[1..] == pre[1..] + target + post;
      forall i | 0 <= i < |pre[1..]|
        ensures !MatchAt(pre[1..] + target + post, target, i)
      {
        MatchShift(s, target, i);
      }
      ReplaceAllOneHole(pre[1..], target, post, replacement);
      assert pre + replacement + post == [pre[0]] + (pre[1..] + replacement + post);
    }
  }

  /** quoteJsonTemplate.replace("${quoteId}", quoteId) */
  function QuoteBody(template: string, quoteId: string): (body: string)
    ensures (forall i :: !MatchAt(template, QuoteIdPlaceholder, i)) ==> body == template
  {
    var body := ReplaceAll(template, QuoteIdPlaceholder, quoteId);
    assert (forall i :: !MatchAt(template, QuoteIdPlaceholder, i)) ==> body == template by {
      if forall i :: !MatchAt(template, QuoteIdPlaceholder, i) {
        ReplaceAllNoMatch(template, QuoteIdPlaceholder, quoteId);
      }
    }
    body
  }

  /** tradeJsonTemplate.replace("${tradeId}", tradeId).replace("${quoteId}", quoteId) */
  function TradeBody(template: string, tradeId: string, quoteId: string): (body: string)
    ensures ((forall i :: !MatchAt(template, TradeIdPlaceholder, i))
             && (forall i :: !MatchAt(template, QuoteIdPlaceholder, i))) ==> body == template
  {
    var withTradeId := ReplaceAll(template, TradeIdPlaceholder, tradeId);
    var body := ReplaceAll(withTradeId, QuoteIdPlaceholder, quoteId);
    assert ((forall i :: !MatchAt(template, TradeIdPlaceholder, i))
            && (forall i :: !MatchAt(template, QuoteIdPlaceholder, i))) ==> body == template by {
      if (forall i :: !MatchAt(template, TradeIdPlaceholder, i))
         && (forall i :: !MatchAt(template, QuoteIdPlaceholder, i)) {
        ReplaceAllNoMatch(template, TradeIdPlaceholder, tradeId);
        ReplaceAllNoMatch(template, QuoteIdPlaceholder, quoteId);
      }
    }
    body
  }

  /** A quote template with one "${quoteId}" hole carries the generated id. */
  lemma QuoteBodyCarriesId(pre: string, post: string, quoteId: string)
    requires forall i :: 0 <= i < |pre| ==> !MatchAt(pre + QuoteIdPlaceholder + post, QuoteIdPlaceholder, i)
    requires forall i :: !MatchAt(post, QuoteIdPlaceholder, i)
    ensures QuoteBody(pre + QuoteIdPlaceholder + post, quoteId) == pre + quoteId + post
  {
    ReplaceAllOneHole(pre, QuoteIdPlaceholder, post, quoteId);
  }

  /** A trade template with one "${tradeId}" hole followed by one
      "${quoteId}" hole carries both ids, the quote id being the one the
      same iteration put in the quote body. */
  lemma TradeBodyCarriesIds(a: string, b: string, c: string, tradeId: string, quoteId: string)
    requires forall i :: 0 <= i < |a| ==>
               !MatchAt(a + TradeIdPlaceholder + (b + QuoteIdPlaceholder + c), TradeIdPlaceholder, i)
    requires forall i :: !MatchAt(b + QuoteIdPlaceholder + c, TradeIdPlaceholder, i)
    requires forall i :: 0 <= i < |a + tradeId + b| ==>
               !MatchAt(a + tradeId + b + QuoteIdPlaceholder + c, QuoteIdPlaceholder, i)
    requires forall i :: !MatchAt(c, QuoteIdPlaceholder, i)
    ensures TradeBody(a + TradeIdPlaceholder + b + QuoteIdPlaceholder + c, tradeId, quoteId)
            == a + tradeId + b + quoteId + c
  {
    var rest := b + QuoteIdPlaceholder + c;
    assert a + TradeIdPlaceholder + b + QuoteIdPlaceholder + c == a + TradeIdPlaceholder + rest;
    ReplaceAllOneHole(a, TradeIdPlaceholder, rest, tradeId);
    assert a + tradeId + rest == (a + tradeId + b) + QuoteIdPlaceholder + c;
    ReplaceAllOneHole(a + tradeId + b, QuoteIdPlaceholder, c, quoteId);
  }

}
