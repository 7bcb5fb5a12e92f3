/** Query-string serialisation: Python 2's `urllib.quote_plus` with the chart
    module's extra safe characters, and the module's own `urlencode`, which the
    top-level copy makes skip internal (`_`-prefixed) keys.  Percent-encoding
    follows section 2.1 of RFC 3986 (upper-case hexadecimal, `%XX` per byte). */
module Quoting {
  import opened Wrappers
  import opened Values
  import opened Strings

  /** Characters Python 2's `quote` never escapes: ASCII letters, digits and `_.-`. */
  predicate AlwaysSafe(c: char)
  {
    'A' <= c <= 'Z' || 'a' <= c <= 'z' || '0' <= c <= '9' || c == '_' || c == '.' || c == '-'
  }

  /** The extra safe set `urlencode` passes, to keep chart URLs readable. */
  const ChartSafe: string := "/:,|"

  function HexDigit(d: nat): (c: char)
    requires d < 16
  {
    if d < 10 then ('0' as int + d) as char else ('A' as int + d - 10) as char
  }

  predicate IsHex(c: char)
  {
    '0' <= c <= '9' || 'A' <= c <= 'F' || 'a' <= c <= 'f'
  }

  function HexValue(c: char): (d: nat)
    requires IsHex(c)
  {
    if '0' <= c <= '9' then c as int - '0' as int
    else if 'A' <= c <= 'F' then c as int - 'A' as int + 10
    else c as int - 'a' as int + 10
  }

  /** `%XX` for one byte. */
  function Escape(c: char): string
    requires c as int < 256
  {
    ['%', HexDigit(c as int / 16), HexDigit(c as int % 16)]
  }

  /** `quote` on one character: kept when safe, `%XX` for any other byte; a
      character beyond a byte is not a Python 2 `str` character. */
  function QuoteChar(c: char, safe: string): Result<string>
  {
    if AlwaysSafe(c) || c in safe then Ok([c])
    else if c as int < 256 then Ok(Escape(c))
    else Err(NotByteString)
  }

  /** Python 2's `quote(s, safe)`. */
  function Quote(s: string, safe: string): Result<string>
  {
    if s == [] then Ok("")
    else
      var head := QuoteChar(s[0], safe);
      if head.Err? then head else Prepend(head.value, Quote(s[1..], safe))
  }

  /** Python 2's `quote_plus(s, safe)`: when the text has a space, quote with the
      space kept and turn every space into `+`. */
  function QuotePlus(s: string, safe: string): Result<string>
  {
    if ' ' in s then
      var q := Quote(s, safe + " ");
      if q.Ok? then Ok(ReplaceChar(q.value, ' ', '+')) else q
    else Quote(s, safe)
  }

  /** Reference, character by character, for `quote_plus` under the chart safe
      set: a space is `+`, letters, digits, `_.-` and `/:,|` stay, every other
      byte is `%XX`. */
  function PlusChar(c: char): Result<string>
  {
    if c == ' ' then Ok("+") else QuoteChar(c, ChartSafe)
  }

  function PlusEach(s: string): Result<string>
  {
    if s == [] then Ok("")
    else
      var head := PlusChar(s[0]);
      if head.Err? then head else Prepend(head.value, PlusEach(s[1..]))
  }

  function ReplaceSpaces(r: Result<string>): Result<string>
  {
    if r.Ok? then Ok(ReplaceChar(r.value, ' ', '+')) else r
  }

  lemma {:induction false} QuoteWithSpace(s: string)
    ensures ReplaceSpaces(Quote(s, ChartSafe + " ")) == PlusEach(s)
    decreases |s|
  {
    if s != [] {
      QuoteWithSpace(s[1..]);
      var c := s[0];
      var safe := ChartSafe + " ";
      var head := QuoteChar(c, safe);
      assert c != ' ' ==> (c in safe <==> c in ChartSafe);
      var rest := Quote(s[1..], safe);
      if head.Ok? && rest.Ok? {
        ReplaceCharAppend(head.value, rest.value, ' ', '+');
        if c != ' ' && !AlwaysSafe(c) && c !in ChartSafe {
          assert ReplaceChar(head.value, ' ', '+') == head.value;
        }
      }
    }
  }

  lemma {:induction false} QuoteWithoutSpace(s: string)
    requires ' ' !in s
    ensures Quote(s, ChartSafe) == PlusEach(s)
    decreases |s|
  {
    if s != [] {
      assert s[0] in s;
      QuoteWithoutSpace(s[1..]);
    }
  }

  /** `quote_plus` with the chart safe set treats the text one character at a
      time, as the reference says: both of its branches agree with it. */
  lemma QuotePlusPerChar(s: string)
    ensures QuotePlus(s, ChartSafe) == PlusEach(s)
  {
    if ' ' in s {
      QuoteWithSpace(s);
    } else {
      QuoteWithoutSpace(s);
    }
  }

  /** The separators `&` and `=` and the space never survive quoting. */
  predicate QueryChar(c: char)
  {
    AlwaysSafe(c) || c in ChartSafe || c == '+' || c == '%'
  }

  lemma {:induction false} PlusEachAlphabet(s: string)
    ensures PlusEach(s).Ok? ==> forall i :: 0 <= i < |PlusEach(s).value| ==> QueryChar(PlusEach(s).value[i])
    decreases |s|
  {
    if s != [] {
      PlusEachAlphabet(s[1..]);
      var head := PlusChar(s[0]);
      if head.Ok? && PlusEach(s[1..]).Ok? {
        var h := head.value;
        var t := PlusEach(s[1..]).value;
        assert PlusEach(s).value == h + t;
        forall i | 0 <= i < |h| ensures QueryChar(h[i]) {
          if |h| == 3 {
            var c := s[0];
            assert h == Escape(c);
            assert AlwaysSafe(HexDigit(c as int / 16));
            assert AlwaysSafe(HexDigit(c as int % 16));
          }
        }
        forall i | 0 <= i < |h + t| ensures QueryChar((h + t)[i]) {
          if i >= |h| {
            assert (h + t)[i] == t[i - |h|];
          }
        }
      }
    }
  }

  /** Python's `unquote_plus`: `+` is a space and `%XX` a byte. */
  function UnquotePlus(s: string): string
  {
    if s == [] then []
    else if s[0] == '+' then " " + UnquotePlus(s[1..])
    else if s[0] == '%' && |s| >= 3 && IsHex(s[1]) && IsHex(s[2]) then
      [(HexValue(s[1]) * 16 + HexValue(s[2])) as char] + UnquotePlus(s[3..])
    else [s[0]] + UnquotePlus(s[1..])
  }

  lemma {:induction false} UnquotePlusEach(s: string)
    ensures PlusEach(s).Ok? ==> UnquotePlus(PlusEach(s).value) == s
    decreases |s|
  {
    if s != [] && PlusEach(s).Ok? {
      UnquotePlusEach(s[1..]);
      var c := s[0];
      var h := PlusChar(c).value;
      var t := PlusEach(s[1..]).value;
      assert PlusEach(s).value == h + t;
      UnquotePlusHead(c, t);
      assert [c] + s[1..] == s;
    }
  }

  /** Unquoting reads one quoted character back off the front. */
  lemma UnquotePlusHead(c: char, t: string)
    requires PlusChar(c).Ok?
    ensures UnquotePlus(PlusChar(c).value + t) == [c] + UnquotePlus(t)
  {
    var q := PlusChar(c).value + t;
    if c == ' ' {
      assert q[0] == '+' && q[1..] == t;
    } else if AlwaysSafe(c) || c in ChartSafe {
      assert q[0] == c && q[1..] == t;
    } else {
      var hi, lo := c as int / 16, c as int % 16;
      assert q[0] == '%' && q[1] == HexDigit(hi) && q[2] == HexDigit(lo) && q[3..] == t;
      assert HexValue(HexDigit(hi)) == hi && HexValue(HexDigit(lo)) == lo;
      assert (hi * 16 + lo) as char == c;
    }
  }

  /** Unquoting what `quote_plus` produced under the chart safe set gives the text back. */
  lemma QuotePlusRoundTrip(s: string)
    ensures QuotePlus(s, ChartSafe).Ok? ==> UnquotePlus(QuotePlus(s, ChartSafe).value) == s
  {
    QuotePlusPerChar(s);
    UnquotePlusEach(s);
  }

  /** `quote_plus` succeeds exactly on byte strings. */
  lemma {:induction false} QuotePlusDefined(s: string)
    ensures QuotePlus(s, ChartSafe).Ok? <==> forall i :: 0 <= i < |s| ==> s[i] as int < 256
    decreases |s|
  {
    QuotePlusPerChar(s);
    if s != [] {
      QuotePlusDefined(s[1..]);
      QuotePlusPerChar(s[1..]);
      assert forall i :: 1 <= i < |s| ==> s[i] == s[1..][i - 1];
    }
  }

  /** A key the top-level copy keeps out of the query string. */
  predicate Internal(k: string)
  {
    |k| > 0 && k[0] == '_'
  }

  /** The items `urlencode` serialises, in order: all of them in the googlecharts
      copy, those whose key does not start with `_` in the top-level copy. */
  function Kept(variant: Variant, query: seq<(string, Value)>): (r: seq<(string, Value)>)
    ensures variant == TopLevel ==> forall i :: 0 <= i < |r| ==> !Internal(r[i].0)
    ensures variant == GoogleCharts ==> r == query
    ensures forall i :: 0 <= i < |r| ==> r[i] in query
  {
    if variant == GoogleCharts || query == [] then query
    else (if Internal(query[0].0) then [] else [query[0]]) + Kept(variant, query[1..])
  }

  /** No pair is lost: every pair whose key does not start with `_` is kept. */
  lemma {:induction false} KeptEvery(variant: Variant, query: seq<(string, Value)>)
    ensures forall i :: 0 <= i < |query| && !Internal(query[i].0) ==> query[i] in Kept(variant, query)
    decreases |query|
  {
    if variant == TopLevel && query != [] {
      KeptEvery(variant, query[1..]);
      assert forall i :: 1 <= i < |query| ==> query[i] == query[1..][i - 1];
    }
  }

  /** The filter works pair by pair: the kept pairs of a concatenation are the
      kept pairs of each part, in order. */
  lemma {:induction false} KeptAppend(variant: Variant, a: seq<(string, Value)>, b: seq<(string, Value)>)
    ensures Kept(variant, a + b) == Kept(variant, a) + Kept(variant, b)
    decreases |a|
  {
    if variant == TopLevel {
      if a == [] {
        assert a + b == b;
      } else {
        var ab := a + b;
        assert ab[0] == a[0] && ab[1..] == a[1..] + b;
        KeptAppend(variant, a[1..], b);
      }
    }
  }

  /** One pair: the top-level copy keeps it exactly when its key does not start
      with `_`. */
  lemma KeptSingle(x: (string, Value))
    ensures Kept(TopLevel, [x]) == if Internal(x.0) then [] else [x]
  {
    assert [x][1..] == [];
  }

  /** A query with no `_` key is serialised whole, in order. */
  lemma {:induction false} KeptAll(query: seq<(string, Value)>)
    requires forall i :: 0 <= i < |query| ==> !Internal(query[i].0)
    ensures Kept(TopLevel, query) == query
    decreases |query|
  {
    if query != [] {
      KeptAll(query[1..]);
      assert [query[0]] + query[1..] == query;
    }
  }

  /** `"%s=%s" % (q(k), q(v))`: a value that is not a string cannot be quoted. */
  function EncodeItem(k: string, v: Value): Result<string>
  {
    var qk := QuotePlus(k, ChartSafe);
    if qk.Err? then qk
    else if !v.Str? then Err(TypeMismatch)
    else
      var qv := QuotePlus(v.s, ChartSafe);
      if qv.Err? then qv else Ok(qk.value + "=" + qv.value)
  }

  function EncodeItems(items: seq<(string, Value)>): (r: Result<seq<string>>)
    ensures r.Ok? ==> |r.value| == |items|
    ensures r.Ok? ==> forall i :: 0 <= i < |items| ==> EncodeItem(items[i].0, items[i].1) == Ok(r.value[i])
  {
    if items == [] then Ok([])
    else
      var head := EncodeItem(items[0].0, items[0].1);
      var rest := EncodeItems(items[1..]);
      if head.Err? then Err(head.error)
      else if rest.Err? then rest
      else Ok([head.value] + rest.value)
  }

  /** The module's `urlencode(query)`. */
  function UrlEncode(variant: Variant, query: seq<(string, Value)>): Result<string>
  {
    var items := EncodeItems(Kept(variant, query));
    if items.Err? then Err(items.error) else Ok(Join("&", items.value))
  }

  /** Reading a query string back: split on `&`, then each item on `=`, unquoting both halves. */
  function DecodeQuery(q: string): seq<(string, string)>
  {
    var items := Split(q, '&');
    seq(|items|, i requires 0 <= i < |items| => DecodeItem(items[i]))
  }

  function DecodeItem(item: string): (string, string)
  {
    var kv := Split(item, '=');
    (UnquotePlus(kv[0]), if |kv| >= 2 then UnquotePlus(kv[1]) else "")
  }

  /** A quoted text has neither separator in it and unquotes to the original. */
  lemma QuotedSeparable(s: string)
    requires QuotePlus(s, ChartSafe).Ok?
    ensures var q := QuotePlus(s, ChartSafe).value;
      '=' !in q && '&' !in q && UnquotePlus(q) == s
  {
    QuotePlusPerChar(s);
    PlusSeparable(s);
  }

  lemma PlusSeparable(s: string)
    requires PlusEach(s).Ok?
    ensures var q := PlusEach(s).value;
      '=' !in q && '&' !in q && UnquotePlus(q) == s
  {
    PlusEachAlphabet(s);
    UnquotePlusEach(s);
    var q := PlusEach(s).value;
    assert !QueryChar('=') && !QueryChar('&');
    forall i | 0 <= i < |q| ensures q[i] != '=' && q[i] != '&' {
      assert QueryChar(q[i]);
    }
  }

  lemma EncodeItemDecodes(k: string, v: Value)
    requires EncodeItem(k, v).Ok?
    ensures v.Str?
    ensures '&' !in EncodeItem(k, v).value
    ensures DecodeItem(EncodeItem(k, v).value) == (k, v.s)
  {
    QuotedSeparable(k);
    QuotedSeparable(v.s);
    var qk := QuotePlus(k, ChartSafe).value;
    var qv := QuotePlus(v.s, ChartSafe).value;
    var item := EncodeItem(k, v).value;
    assert item == qk + "=" + qv;
    SplitJoin([qk, qv], '=');
    JoinCons("=", qk, [qv]);
    assert item == Join("=", [qk, qv]);
    assert Split(item, '=') == [qk, qv];
  }

  /** What `urlencode` produces reads back as exactly the serialised items, keys
      and values, in map order; in the top-level copy no key of the result
      starts with `_`. */
  lemma UrlEncodeRoundTrip(variant: Variant, query: seq<(string, Value)>)
    requires UrlEncode(variant, query).Ok?
    requires |Kept(variant, query)| >= 1
    ensures var kept := Kept(variant, query);
      var back := DecodeQuery(UrlEncode(variant, query).value);
      && |back| == |kept|
      && forall i :: 0 <= i < |kept| ==> kept[i].1.Str? && back[i] == (kept[i].0, kept[i].1.s)
    ensures variant == TopLevel ==>
      forall i :: 0 <= i < |DecodeQuery(UrlEncode(variant, query).value)| ==>
        !Internal(DecodeQuery(UrlEncode(variant, query).value)[i].0)
  {
    var kept := Kept(variant, query);
    var items := EncodeItems(kept).value;
    forall i | 0 <= i < |items| ensures '&' !in items[i] && kept[i].1.Str? && DecodeItem(items[i]) == (kept[i].0, kept[i].1.s) {
      EncodeItemDecodes(kept[i].0, kept[i].1);
    }
    SplitJoin(items, '&');
  }

  /** The chart safe set and the always-safe characters pass through unescaped. */
  lemma SafeCharsUnescaped(c: char)
    requires AlwaysSafe(c) || c in ChartSafe
    ensures QuotePlus([c], ChartSafe) == Ok([c])
  {
    QuotePlusPerChar([c]);
    assert c != ' ' && PlusChar(c) == Ok([c]);
    assert [c][0] == c && [c][1..] == [];
    assert PlusEach([c]) == Prepend([c], Ok(""));
    assert [c] + "" == [c];
  }
}
