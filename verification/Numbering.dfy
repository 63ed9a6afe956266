/**
 * Document numbers: one upsert per number on a company-scoped series, whose
 * prefix is fixed by the first call, and zero-padding that each call chooses.
 */
module Numbering {
  import opened Common
  import I = Idempotency

  // ----- number text -----

  function Digit(d: nat): char
    requires d < 10
  {
    "0123456789"[d]
  }

  function Decimal(n: nat): (s: string)
    ensures s != ""
  {
    if n < 10 then [Digit(n)] else Decimal(n / 10) + [Digit(n % 10)]
  }

  function PadStart(s: string, width: int): string
    decreases width - |s|
  {
    if width <= |s| then s else PadStart(['0'] + s, width)
  }

  function NumberText(n: nat, padding: int): string {
    if padding > 0 then PadStart(Decimal(n), padding) else Decimal(n)
  }

  predicate IsDecimal(s: string) {
    forall k :: 0 <= k < |s| ==> '0' <= s[k] <= '9'
  }

  function Parse(s: string): nat
    requires IsDecimal(s)
    decreases |s|
  {
    if s == "" then 0 else 10 * Parse(s[..|s| - 1]) + (s[|s| - 1] - '0') as nat
  }

  lemma {:induction false} DecimalParses(n: nat)
    ensures IsDecimal(Decimal(n)) && Parse(Decimal(n)) == n
  {
    var last := [Digit(n % 10)];
    if n >= 10 {
      DecimalParses(n / 10);
      assert (Decimal(n / 10) + last)[..|Decimal(n / 10)|] == Decimal(n / 10);
    } else {
      assert last[..0] == "";
    }
  }

  lemma {:induction false} LeadingZeroParses(s: string)
    requires IsDecimal(s)
    ensures IsDecimal(['0'] + s) && Parse(['0'] + s) == Parse(s)
    decreases |s|
  {
    var t := ['0'] + s;
    if s == "" {
      assert t[..0] == "";
    } else {
      LeadingZeroParses(s[..|s| - 1]);
      assert t[..|t| - 1] == ['0'] + s[..|s| - 1];
    }
  }

  lemma {:induction false} PaddingParses(s: string, width: int)
    requires IsDecimal(s)
    ensures IsDecimal(PadStart(s, width)) && Parse(PadStart(s, width)) == Parse(s)
    ensures |PadStart(s, width)| == Max(width, |s|)
    decreases width - |s|
  {
    if width > |s| {
      LeadingZeroParses(s);
      PaddingParses(['0'] + s, width);
    }
  }

  /** Padded or not, the text of a number parses back to it. */
  lemma NumberTextParses(n: nat, padding: int)
    ensures IsDecimal(NumberText(n, padding)) && Parse(NumberText(n, padding)) == n
    ensures |NumberText(n, padding)| == Max(padding, |Decimal(n)|)
  {
    DecimalParses(n);
    PaddingParses(Decimal(n), padding);
  }

  /** The plain text of a number has no leading zero, so text and number determine each other. */
  lemma {:induction false} DecimalIsCanonical(n: nat)
    ensures Decimal(n)[0] == '0' <==> n == 0
    ensures n == 0 ==> Decimal(n) == "0"
  {
    if n >= 10 {
      DecimalIsCanonical(n / 10);
    }
  }

  /** Padding puts zeros in front and changes nothing else. */
  lemma {:induction false} PaddingIsZeros(s: string, width: int)
    ensures var t := PadStart(s, width); var extra := |t| - |s|;
            && extra == (if width > |s| then width - |s| else 0)
            && t[extra..] == s && forall k :: 0 <= k < extra ==> t[k] == '0'
    decreases width - |s|
  {
    if width > |s| {
      PaddingIsZeros(['0'] + s, width);
    }
  }

  // ----- the series table -----

  datatype Series = Series(prefix: string, padding: int, current: nat)

  type Table = map<string, Series>

  datatype Context = Context(company: Option<string>, tenant: Option<string>)

  const DEFAULT_COMPANY := "00000000-0000-0000-0000-000000000000"

  function ResolveCompany(ctx: Context): string {
    if ctx.company.Some? then ctx.company.value else ctx.tenant.GetOr(DEFAULT_COMPANY)
  }

  function ScopedKey(ctx: Context, key: string): string {
    ResolveCompany(ctx) + ":" + key
  }

  /** The company if there is one, else the tenant, else the default company; and a colon before the caller's key. */
  lemma SeriesBelongsTo(company: string, tenant: Option<string>, key: string)
    ensures ScopedKey(Context(Some(company), tenant), key) == company + ":" + key
    ensures tenant.Some? ==> ScopedKey(Context(None, tenant), key) == tenant.value + ":" + key
    ensures ScopedKey(Context(None, None), key) == "00000000-0000-0000-0000-000000000000" + ":" + key
  {
  }

  /** Companies without the separator never share a series with one another, nor do two keys of one. */
  lemma SeriesAreSeparate(a: Context, b: Context, x: string, y: string)
    requires ':' !in ResolveCompany(a) && ':' !in ResolveCompany(b)
    ensures ScopedKey(a, x) == ScopedKey(b, y) <==> ResolveCompany(a) == ResolveCompany(b) && x == y
  {
    if ScopedKey(a, x) == ScopedKey(b, y) {
      I.SplitAtColon(ResolveCompany(a), ResolveCompany(b), x, y);
    }
  }

  /**
   * A company's key has its series to itself, among all companies and keys, if and
   * only if neither holds the separator.
   */
  lemma SeriesIsItsOwnExactly(ctx: Context, key: string)
    ensures (forall other: Context, k: string :: ScopedKey(other, k) == ScopedKey(ctx, key) ==>
               ResolveCompany(other) == ResolveCompany(ctx) && k == key)
       <==> ':' !in ResolveCompany(ctx) && ':' !in key
  {
    var company := ResolveCompany(ctx);
    if ':' !in company && ':' !in key {
      forall other: Context, k: string | ScopedKey(other, k) == ScopedKey(ctx, key)
        ensures ResolveCompany(other) == company && k == key
      {
        I.ColonsOfJoin(company, key);
        I.ColonsOfJoin(ResolveCompany(other), k);
        I.NoColons(company);
        I.NoColons(key);
        I.NoColons(ResolveCompany(other));
        I.SplitAtColon(company, ResolveCompany(other), key, k);
      }
    } else {
      var other, k := SharedSeries(ctx, key);
    }
  }

  /** With a separator in either, another company's key names the same series. */
  lemma SharedSeries(ctx: Context, key: string) returns (other: Context, k: string)
    requires ':' in ResolveCompany(ctx) || ':' in key
    ensures ScopedKey(other, k) == ScopedKey(ctx, key) && ResolveCompany(other) != ResolveCompany(ctx)
  {
    var company := ResolveCompany(ctx);
    if ':' in company {
      var a, b := I.SplitAt(company);
      other, k := Context(Some(a), None), b + ":" + key;
      assert a + ":" + (b + ":" + key) == (a + ":" + b) + ":" + key;
    } else {
      var a, b := I.SplitAt(key);
      other, k := Context(Some(company + ":" + a), None), b;
      assert (company + ":" + a) + ":" + b == company + ":" + (a + ":" + b);
      assert |company + ":" + a| > |company|;
    }
  }

  datatype Call = Call(key: string, prefix: Option<string>, padding: Option<int>)

  function Upsert(t: Table, c: Call): Table {
    if c.key in t then t[c.key := t[c.key].(current := t[c.key].current + 1)]
    else t[c.key := Series(c.prefix.GetOr(""), c.padding.GetOr(0), 1)]
  }

  function TextOf(t: Table, c: Call): string {
    var s := Upsert(t, c)[c.key];
    s.prefix + NumberText(s.current, c.padding.GetOr(0))
  }

  // ----- runs -----

  function Run(t: Table, calls: seq<Call>): Table
    decreases |calls|
  {
    if calls == [] then t else Upsert(Run(t, calls[..|calls| - 1]), calls[|calls| - 1])
  }

  /** What the i-th call of a run from an empty table answers. */
  function Answer(calls: seq<Call>, i: nat): string
    requires i < |calls|
  {
    TextOf(Run(map[], calls[..i]), calls[i])
  }

  function Count(calls: seq<Call>, key: string): nat
    decreases |calls|
  {
    if calls == [] then 0
    else Count(calls[..|calls| - 1], key) + if calls[|calls| - 1].key == key then 1 else 0
  }

  function FirstPrefix(calls: seq<Call>, key: string): string
    decreases |calls|
  {
    if calls == [] then ""
    else if Count(calls[..|calls| - 1], key) > 0 then FirstPrefix(calls[..|calls| - 1], key)
    else calls[|calls| - 1].prefix.GetOr("")
  }

  /** A first call opens its series at 1 under its prefix; a later one takes the next number, and the stored prefix. */
  lemma CallWrites(t: Table, c: Call, k: string)
    ensures var after := Upsert(t, c); var padding := c.padding.GetOr(0);
            && (k in after <==> k in t || k == c.key) && (k in t && k != c.key ==> after[k] == t[k])
            && (c.key !in t ==> after[c.key].current == 1 && after[c.key].prefix == c.prefix.GetOr("") &&
                                TextOf(t, c) == c.prefix.GetOr("") + NumberText(1, padding))
            && (c.key in t ==> after[c.key].current == t[c.key].current + 1 && after[c.key].prefix == t[c.key].prefix &&
                               TextOf(t, c) == t[c.key].prefix + NumberText(t[c.key].current + 1, padding))
  {
  }

  /** The table counts each series' own calls, and keeps the prefix of its first. */
  lemma {:induction false} TableCounts(calls: seq<Call>, key: string)
    ensures var t := Run(map[], calls);
            && (key in t <==> Count(calls, key) > 0)
            && (key in t ==> t[key].current == Count(calls, key) && t[key].prefix == FirstPrefix(calls, key))
    decreases |calls|
  {
    if calls != [] {
      TableCounts(calls[..|calls| - 1], key);
    }
  }

  lemma {:induction false} FirstPrefixStays(calls: seq<Call>, more: seq<Call>, key: string)
    requires Count(calls, key) > 0
    ensures Count(calls + more, key) >= Count(calls, key)
    ensures FirstPrefix(calls + more, key) == FirstPrefix(calls, key)
    decreases |more|
  {
    var all := calls + more;
    if more == [] {
      assert all == calls;
    } else {
      FirstPrefixStays(calls, more[..|more| - 1], key);
      assert all[..|all| - 1] == calls + more[..|more| - 1];
    }
  }

  /** In every run the n-th call on a series answers the series' prefix and the number n, padded as the call asks. */
  lemma {:induction false} AnswerIsPrefixAndRank(calls: seq<Call>, i: nat)
    requires i < |calls|
    ensures var c := calls[i];
            Answer(calls, i) == FirstPrefix(calls, c.key) + NumberText(Count(calls[..i], c.key) + 1, c.padding.GetOr(0))
  {
    var t, c := Run(map[], calls[..i]), calls[i];
    TableCounts(calls[..i], c.key);
    PrefixAtCall(calls, i);
    var s := Upsert(t, c)[c.key];
    assert s.prefix == FirstPrefix(calls, c.key);
    assert s.current == Count(calls[..i], c.key) + 1;
  }

  lemma PrefixAtCall(calls: seq<Call>, i: nat)
    requires i < |calls|
    ensures var key := calls[i].key;
            FirstPrefix(calls, key)
            == if Count(calls[..i], key) > 0 then FirstPrefix(calls[..i], key) else calls[i].prefix.GetOr("")
  {
    var upTo := calls[..i + 1];
    assert upTo[..i] == calls[..i];
    assert calls == upTo + calls[i + 1..];
    FirstPrefixStays(upTo, calls[i + 1..], calls[i].key);
  }

  /** Numbers of one series are pairwise distinct, for any mix of padding options. */
  lemma NumbersAreDistinct(calls: seq<Call>, i: nat, j: nat)
    requires i < j < |calls| && calls[i].key == calls[j].key
    ensures Answer(calls, i) != Answer(calls, j)
  {
    var key := calls[i].key;
    AnswerIsPrefixAndRank(calls, i);
    AnswerIsPrefixAndRank(calls, j);
    RankGrows(calls, i, j);
    DifferentNumbersDiffer(FirstPrefix(calls, key), Count(calls[..i], key) + 1, Count(calls[..j], key) + 1,
                           calls[i].padding.GetOr(0), calls[j].padding.GetOr(0));
  }

  /** Under one prefix different numbers have different texts, however each is padded. */
  lemma DifferentNumbersDiffer(prefix: string, m: nat, n: nat, p: int, q: int)
    requires m != n
    ensures prefix + NumberText(m, p) != prefix + NumberText(n, q)
  {
    var x, y := NumberText(m, p), NumberText(n, q);
    NumberTextParses(m, p);
    NumberTextParses(n, q);
    assert (prefix + x)[|prefix|..] == x && (prefix + y)[|prefix|..] == y;
  }

  lemma {:induction false} RankGrows(calls: seq<Call>, i: nat, j: nat)
    requires i < j <= |calls|
    ensures Count(calls[..i], calls[i].key) < Count(calls[..j], calls[i].key)
    decreases j - i
  {
    assert calls[..j][..j - 1] == calls[..j - 1];
    if i + 1 < j {
      RankGrows(calls, i, j - 1);
    }
  }

  /** The series has no gap: every number up to its count was answered by one of its calls. */
  lemma {:induction false} NumbersHaveNoGap(calls: seq<Call>, key: string, n: nat) returns (i: nat)
    requires 1 <= n <= Count(calls, key)
    ensures i < |calls| && calls[i].key == key
    ensures Answer(calls, i) == FirstPrefix(calls, key) + NumberText(n, calls[i].padding.GetOr(0))
    decreases |calls|
  {
    i := CallOfRank(calls, key, n);
    AnswerIsPrefixAndRank(calls, i);
  }

  lemma {:induction false} CallOfRank(calls: seq<Call>, key: string, n: nat) returns (i: nat)
    requires 1 <= n <= Count(calls, key)
    ensures i < |calls| && calls[i].key == key && Count(calls[..i], key) + 1 == n
    decreases |calls|
  {
    var front := calls[..|calls| - 1];
    if n <= Count(front, key) {
      i := CallOfRank(front, key, n);
      assert front[..i] == calls[..i];
    } else {
      i := |calls| - 1;
    }
  }

  class NumberingRepository {
    var series: Table

    constructor ()
      ensures series == map[]
    {
      series := map[];
    }

    method NextNumber(ctx: Context, callerKey: string, prefix: Option<string>, padding: Option<int>) returns (text: string)
      modifies this
      ensures var call := Call(ScopedKey(ctx, callerKey), prefix, padding);
              series == Upsert(old(series), call) && text == TextOf(old(series), call)
    {
      var width := padding.GetOr(0);
      var key := ScopedKey(ctx, callerKey);
      if key in series {
        series := series[key := series[key].(current := series[key].current + 1)];
      } else {
        series := series[key := Series(prefix.GetOr(""), width, 1)];
      }
      var updated := series[key];
      var numberText := if width > 0 then PadStart(Decimal(updated.current), width) else Decimal(updated.current);
      text := updated.prefix + numberText;
    }
  }
}
