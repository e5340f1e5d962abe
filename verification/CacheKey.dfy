/** The key under which one page of the feed is cached, and what can be recovered from it. */
module CacheKey {
  import opened Wrappers
  import opened Decimal
  import opened Sequences

  datatype Filter = Filter(category: string, query: string, min: Option<real>, max: Option<real>, limit: nat, offset: nat)

  // ---- strconv.FormatFloat(p, 'f', 2, 64) ----

  /** The nearest whole number of cents, ties to even. */
  function Cents(p: real): (n: nat)
    requires p >= 0.0
    ensures -0.5 <= n as real - p * 100.0 <= 0.5
  {
    var f := (p * 100.0).Floor;
    var d := p * 100.0 - f as real;
    if d < 0.5 || (d == 0.5 && f % 2 == 0) then f else f + 1
  }

  /** Halves of a cent go to the even neighbour. */
  lemma TiesGoToEven(p: real)
    requires p >= 0.0 && p * 100.0 - (p * 100.0).Floor as real == 0.5
    ensures Cents(p) % 2 == 0
  {
  }

  /** A price as the key knows it: its sign and its cents. */
  datatype Price = Price(negative: bool, cents: nat)

  function Rounded(p: real): Price {
    if p < 0.0 then Price(true, Cents(-p)) else Price(false, Cents(p))
  }

  function TwoDigits(n: nat): string
    requires n < 100
  {
    [DigitChar(n / 10), DigitChar(n % 10)]
  }

  function PutPrice(p: Option<Price>): string {
    match p
    case None => "-"
    case Some(q) => (if q.negative then "-" else "") + (Digits(q.cents / 100) + ("." + TwoDigits(q.cents % 100)))
  }

  function FmtPrice(p: Option<real>): string {
    PutPrice(Round(p))
  }

  function Round(p: Option<real>): Option<Price> {
    match p case None => None case Some(r) => Some(Rounded(r))
  }

  // ---- The key ----

  const PREFIX := "listings:v"

  function Format(version: nat, f: Filter): string {
    PREFIX + (Digits(version) + (":" + (f.category + (":" + (FmtPrice(f.min) + (":" + (FmtPrice(f.max) + (":" +
    (Digits(f.limit) + (":" + (Digits(f.offset) + (":" + f.query))))))))))))
  }

  /** A filter with its prices rounded to cents. */
  datatype Rough = Rough(category: string, query: string, min: Option<Price>, max: Option<Price>, limit: nat, offset: nat)

  function Blur(f: Filter): Rough {
    Rough(f.category, f.query, Round(f.min), Round(f.max), f.limit, f.offset)
  }

  // ---- Reading a key ----

  /** What stands before the first colon, and what stands after it. */
  function Cut(s: string): (r: Option<(string, string)>)
    ensures r.Some? ==> |r.value.1| < |s|
  {
    if s == "" then None
    else if s[0] == ':' then Some(("", s[1..]))
    else
      match Cut(s[1..])
      case None => None
      case Some((head, tail)) => Some(([s[0]] + head, tail))
  }

  function ReadNat(s: string): Option<nat> {
    if s != "" && AllDigits(s) then Some(Value(s)) else None
  }

  function ReadMagnitude(s: string, negative: bool): Option<Price> {
    var n := DigitRun(s);
    if n > 0 && |s| == n + 3 && s[n] == '.' && AllDigits(s[n + 1..])
      then Some(Price(negative, Value(s[..n]) * 100 + Value(s[n + 1..]))) else None
  }

  /** Some(None) is an absent price. */
  function ReadPrice(s: string): Option<Option<Price>> {
    if s == "-" then Some(None)
    else
      match if s != "" && s[0] == '-' then ReadMagnitude(s[1..], true) else ReadMagnitude(s, false)
      case None => None
      case Some(p) => Some(Some(p))
  }

  function Parse(key: string): Option<(nat, Rough)> {
    if !(PREFIX <= key) then None else
      match Cut(key[|PREFIX|..]) case None => None case Some((version, s1)) =>
        match Cut(s1) case None => None case Some((category, s2)) =>
          match Cut(s2) case None => None case Some((min, s3)) =>
            match Cut(s3) case None => None case Some((max, s4)) =>
              match Cut(s4) case None => None case Some((limit, s5)) =>
                match Cut(s5) case None => None case Some((offset, query)) =>
                  Assemble(ReadNat(version), category, ReadPrice(min), ReadPrice(max), ReadNat(limit), ReadNat(offset), query)
  }

  function Assemble(version: Option<nat>, category: string, min: Option<Option<Price>>, max: Option<Option<Price>>,
                    limit: Option<nat>, offset: Option<nat>, query: string): Option<(nat, Rough)>
  {
    if version.Some? && min.Some? && max.Some? && limit.Some? && offset.Some?
      then Some((version.value, Rough(category, query, min.value, max.value, limit.value, offset.value))) else None
  }

  lemma {:induction false} CutAtColon(head: string, tail: string)
    requires NoColon(head)
    ensures Cut(head + (":" + tail)) == Some((head, tail))
  {
    if head == "" {
      assert head + (":" + tail) == ":" + tail;
    } else {
      assert (head + (":" + tail))[1..] == head[1..] + (":" + tail);
      assert [head[0]] + head[1..] == head;
      CutAtColon(head[1..], tail);
    }
  }

  lemma TwoDigitsValue(n: nat)
    requires n < 100
    ensures AllDigits(TwoDigits(n)) && Value(TwoDigits(n)) == n
  {
    var tens := [DigitChar(n / 10)];
    assert tens[..0] == "" && Value(tens) == n / 10;
    assert TwoDigits(n)[..1] == tens;
  }

  lemma PriceReads(p: Option<Price>)
    ensures ReadPrice(PutPrice(p)) == Some(p) && NoColon(PutPrice(p))
  {
    if p.Some? {
      MagnitudeReads(p.value.cents, p.value.negative);
      var s := Digits(p.value.cents / 100) + ("." + TwoDigits(p.value.cents % 100));
      if p.value.negative {
        assert PutPrice(p) == "-" + s && ("-" + s)[1..] == s;
      } else {
        assert PutPrice(p) == s;
      }
    }
  }

  lemma MagnitudeReads(n: nat, negative: bool)
    ensures var s := Digits(n / 100) + ("." + TwoDigits(n % 100));
            ReadMagnitude(s, negative) == Some(Price(negative, n)) && NoColon(s) && s != "" && s[0] != '-'
  {
    var whole, part := Digits(n / 100), TwoDigits(n % 100);
    DigitRunStops(whole, "." + part);
    ValueOfDigits(n / 100);
    TwoDigitsValue(n % 100);
    AroundPoint(whole, part);
    ReadParts(whole, part, negative);
  }

  lemma ReadParts(whole: string, part: string, negative: bool)
    requires whole != "" && AllDigits(whole) && |part| == 2 && AllDigits(part) && DigitRun(whole + ("." + part)) == |whole|
    ensures ReadMagnitude(whole + ("." + part), negative) == Some(Price(negative, Value(whole) * 100 + Value(part)))
  {
    AroundPoint(whole, part);
  }

  lemma AroundPoint(whole: string, part: string)
    requires whole != "" && AllDigits(whole) && AllDigits(part)
    ensures var s := whole + ("." + part);
            && |s| == |whole| + 1 + |part| && s[|whole|] == '.' && s[..|whole|] == whole && s[|whole| + 1..] == part
            && NoColon(s) && s[0] == whole[0]
  {
  }

  lemma NatReads(n: nat)
    ensures ReadNat(Digits(n)) == Some(n) && NoColon(Digits(n))
  {
    ValueOfDigits(n);
  }

  /** Reading a key gives back the version and the filter up to the rounding of prices, for every query. */
  lemma KeyRoundTrip(version: nat, f: Filter)
    requires NoColon(f.category)
    ensures Parse(Format(version, f)) == Some((version, Blur(f)))
  {
    var k6 := f.query;
    var k5 := Digits(f.offset) + (":" + k6);
    var k4 := Digits(f.limit) + (":" + k5);
    var k3 := FmtPrice(f.max) + (":" + k4);
    var k2 := FmtPrice(f.min) + (":" + k3);
    var k1 := f.category + (":" + k2);
    var k0 := Digits(version) + (":" + k1);
    assert Format(version, f) == PREFIX + k0;
    assert (PREFIX + k0)[|PREFIX|..] == k0;
    NatReads(version); NatReads(f.limit); NatReads(f.offset);
    PriceReads(Round(f.min)); PriceReads(Round(f.max));
    CutAtColon(Digits(version), k1);
    CutAtColon(f.category, k2);
    CutAtColon(FmtPrice(f.min), k3);
    CutAtColon(FmtPrice(f.max), k4);
    CutAtColon(Digits(f.limit), k5);
    CutAtColon(Digits(f.offset), k6);
  }

  // ---- When two keys are equal ----

  /** What a key puts between the category and the query, up to the last colon. */
  function Middle(min: Option<Price>, max: Option<Price>, limit: nat, offset: nat): string {
    ":" + (PutPrice(min) + (":" + (PutPrice(max) + (":" + (Digits(limit) + (":" + Digits(offset)))))))
  }

  function MiddleOf(f: Filter): string {
    Middle(Round(f.min), Round(f.max), f.limit, f.offset)
  }

  /** The key after its version. */
  function Body(f: Filter): string {
    f.category + (MiddleOf(f) + (":" + f.query))
  }

  lemma MiddleThen(min: Option<Price>, max: Option<Price>, limit: nat, offset: nat, tail: string)
    ensures Middle(min, max, limit, offset) + tail
         == ":" + (PutPrice(min) + (":" + (PutPrice(max) + (":" + (Digits(limit) + (":" + (Digits(offset) + tail)))))))
  {
    var d := ":" + Digits(offset);
    var c := ":" + (Digits(limit) + d);
    var b := ":" + (PutPrice(max) + c);
    Assoc(":", Digits(offset), tail);
    Assoc(Digits(limit), d, tail);
    Assoc(":", Digits(limit) + d, tail);
    Assoc(PutPrice(max), c, tail);
    Assoc(":", PutPrice(max) + c, tail);
    Assoc(PutPrice(min), b, tail);
    Assoc(":", PutPrice(min) + b, tail);
  }

  lemma FormatIsBody(v: nat, f: Filter)
    ensures Format(v, f) == PREFIX + (Digits(v) + (":" + Body(f)))
  {
    MiddleThen(Round(f.min), Round(f.max), f.limit, f.offset, ":" + f.query);
  }

  lemma SplitsAlike(h: string, s: string, h': string, s': string)
    requires NoColon(h) && NoColon(h') && h + (":" + s) == h' + (":" + s')
    ensures h == h' && s == s'
  {
    CutAtColon(h, s);
    CutAtColon(h', s');
  }

  /** Whatever the filters are, a key names its version. */
  lemma KeyHasVersion(v: nat, f: Filter, w: nat, g: Filter)
    requires Format(v, f) == Format(w, g)
    ensures v == w && Body(f) == Body(g)
  {
    FormatIsBody(v, f);
    FormatIsBody(w, g);
    NatReads(v);
    NatReads(w);
    assert (PREFIX + (Digits(v) + (":" + Body(f))))[|PREFIX|..] == Digits(v) + (":" + Body(f));
    assert (PREFIX + (Digits(w) + (":" + Body(g))))[|PREFIX|..] == Digits(w) + (":" + Body(g));
    SplitsAlike(Digits(v), Body(f), Digits(w), Body(g));
  }

  /** `d` is `c` followed by a colon and what reads as two prices, a limit and an offset, and then nothing or another colon:
      a key for `d` can be read as a key for `c`. */
  ghost predicate Continues(c: string, d: string) {
    exists min, max, limit, offset, tail :: ContinuesBy(c, d, min, max, limit, offset, tail)
  }

  predicate ContinuesBy(c: string, d: string, min: Option<Price>, max: Option<Price>, limit: nat, offset: nat, tail: string) {
    (tail == "" || tail[0] == ':') && d == c + (Middle(min, max, limit, offset) + tail)
  }

  lemma NatIsNoPrice(n: nat, p: Option<Price>)
    ensures Digits(n) != PutPrice(p)
  {
    if p.Some? {
      var whole := Digits(p.value.cents / 100);
      var sign := if p.value.negative then "-" else "";
      assert PutPrice(p) == sign + (whole + ("." + TwoDigits(p.value.cents % 100)));
      assert PutPrice(p)[|sign| + |whole|] == '.';
    }
  }

  lemma LongerHead(c: string, s: string, d: string, s': string) returns (e: string)
    requires c + (":" + s) == d + (":" + s') && |c| < |d|
    ensures d == c + (":" + e) && e + (":" + s') == s
  {
    var whole := c + (":" + s);
    e := d[|c| + 1..];
    assert d[..|c|] == whole[..|c|] == c;
    assert d[|c|] == whole[|c|] == ':';
    assert whole[|c| + 1..] == s;
    assert whole[|c| + 1..] == e + (":" + s');
  }

  /** One field of the shorter category's key against the longer category: the field is all that is left of it, or the first
      part of it. */
  lemma Peel(e: string, s: string, head: string, s': string) returns (more: string)
    requires NoColon(head) && e + (":" + s) == head + (":" + s')
    ensures NoColon(e) ==> e == head && s == s'
    ensures !NoColon(e) ==> e == head + (":" + more) && more + (":" + s) == s'
  {
    var whole := e + (":" + s);
    if NoColon(e) {
      SplitsAlike(e, s, head, s');
      more := "";
    } else {
      var i :| 0 <= i < |e| && e[i] == ':';
      assert whole[i] == ':';
      assert forall j :: 0 <= j < |head| ==> whole[j] == head[j] != ':';
      assert |head| <= i;
      more := LongerHead(head, s', e, s);
    }
  }

  /** What a key holds after the category, field by field. */
  function Fields(f: Filter): string {
    PutPrice(Round(f.min)) + (":" + (PutPrice(Round(f.max)) + (":" + (Digits(f.limit) + (":" + (Digits(f.offset) + (":" + f.query)))))))
  }

  lemma BodyIsFields(f: Filter)
    ensures Body(f) == f.category + (":" + Fields(f))
  {
    MiddleThen(Round(f.min), Round(f.max), f.limit, f.offset, ":" + f.query);
  }

  /** Fields start with two prices, so they are no number followed by something, nor a price and a number. */
  lemma FieldsAreNoNumber(g: Filter, n: nat, s: string)
    ensures Fields(g) != Digits(n) + (":" + s)
  {
    if Fields(g) == Digits(n) + (":" + s) {
      PriceReads(Round(g.min));
      NatReads(n);
      SplitsAlike(PutPrice(Round(g.min)), PutPrice(Round(g.max)) + (":" + (Digits(g.limit) + (":" + (Digits(g.offset) + (":" + g.query))))),
                  Digits(n), s);
      NatIsNoPrice(n, Round(g.min));
    }
  }

  lemma FieldsAreNoPriceAndNumber(g: Filter, p: Option<Price>, n: nat, s: string)
    ensures Fields(g) != PutPrice(p) + (":" + (Digits(n) + (":" + s)))
  {
    if Fields(g) == PutPrice(p) + (":" + (Digits(n) + (":" + s))) {
      PriceReads(Round(g.min));
      PriceReads(Round(g.max));
      PriceReads(p);
      NatReads(n);
      var more := Digits(g.limit) + (":" + (Digits(g.offset) + (":" + g.query)));
      SplitsAlike(PutPrice(Round(g.min)), PutPrice(Round(g.max)) + (":" + more), PutPrice(p), Digits(n) + (":" + s));
      SplitsAlike(PutPrice(Round(g.max)), more, Digits(n), s);
      NatIsNoPrice(n, Round(g.max));
    }
  }

  /** What is left of the longer category after the shorter one and a colon covers all four fields of the shorter one's key. */
  lemma CoversFields(e: string, f: Filter, g: Filter) returns (tail: string)
    requires e + (":" + Fields(g)) == Fields(f)
    ensures tail == "" || tail[0] == ':'
    ensures e == PutPrice(Round(f.min)) + (":" + (PutPrice(Round(f.max)) + (":" + (Digits(f.limit) + (":" + (Digits(f.offset) + tail))))))
  {
    PriceReads(Round(f.min)); PriceReads(Round(f.max)); NatReads(f.limit); NatReads(f.offset);
    var s3 := Digits(f.offset) + (":" + f.query);
    var s2 := Digits(f.limit) + (":" + s3);
    var s1 := PutPrice(Round(f.max)) + (":" + s2);
    FieldsAreNoPriceAndNumber(g, Round(f.max), f.limit, s3);
    FieldsAreNoNumber(g, f.limit, s3);
    FieldsAreNoNumber(g, f.offset, f.query);
    var e1 := Peel(e, Fields(g), PutPrice(Round(f.min)), s1);
    var e2 := Peel(e1, Fields(g), PutPrice(Round(f.max)), s2);
    var e3 := Peel(e2, Fields(g), Digits(f.limit), s3);
    var e4 := Peel(e3, Fields(g), Digits(f.offset), f.query);
    tail := if NoColon(e3) then "" else ":" + e4;
    assert e3 == Digits(f.offset) + tail;
  }

  lemma LongerContinues(f: Filter, g: Filter)
    requires Body(f) == Body(g) && |f.category| < |g.category|
    ensures Continues(f.category, g.category)
  {
    BodyIsFields(f);
    BodyIsFields(g);
    var e := LongerHead(f.category, Fields(f), g.category, Fields(g));
    var tail := CoversFields(e, f, g);
    MiddleThen(Round(f.min), Round(f.max), f.limit, f.offset, tail);
    assert ContinuesBy(f.category, g.category, Round(f.min), Round(f.max), f.limit, f.offset, tail);
  }

  lemma SameHead(c: string, s: string, d: string, s': string)
    requires c + (":" + s) == d + (":" + s') && |c| == |d|
    ensures c == d && s == s'
  {
    var whole := c + (":" + s);
    assert whole[..|c|] == c && whole[..|c|] == d;
    assert whole[|c| + 1..] == s && whole[|c| + 1..] == s';
  }

  lemma FieldsRead(f: Filter)
    ensures Parse(PREFIX + (Digits(0) + (":" + ("" + (":" + Fields(f)))))) == Some((0, Blur(f).(category := "")))
  {
    KeyRoundTrip(0, f.(category := ""));
  }

  lemma SameCategoryAgrees(f: Filter, g: Filter)
    requires Body(f) == Body(g) && |f.category| == |g.category|
    ensures Blur(f) == Blur(g)
  {
    BodyIsFields(f);
    BodyIsFields(g);
    SameHead(f.category, Fields(f), g.category, Fields(g));
    FieldsRead(f);
    FieldsRead(g);
  }

  /** Neither category can be read as the other one followed by the fields of a key. */
  ghost predicate Apart(c: string, d: string) {
    !Continues(c, d) && !Continues(d, c)
  }

  lemma PlainCategoriesApart(c: string, d: string)
    requires NoColon(c) && NoColon(d)
    ensures Apart(c, d)
  {
    if Continues(c, d) { NoColonNoContinuation(c, d); }
    if Continues(d, c) { NoColonNoContinuation(d, c); }
  }

  lemma NoColonNoContinuation(c: string, d: string)
    requires Continues(c, d)
    ensures !NoColon(d)
  {
    var min, max, limit, offset, tail :| ContinuesBy(c, d, min, max, limit, offset, tail);
    assert d[|c|] == ':';
  }

  /** Between categories that stand apart, equal keys mean exactly equal versions and equal filters up to cents. */
  lemma KeysAgree(v: nat, f: Filter, w: nat, g: Filter)
    requires Apart(f.category, g.category)
    ensures Format(v, f) == Format(w, g) <==> v == w && Blur(f) == Blur(g)
  {
    if Format(v, f) == Format(w, g) {
      KeyHasVersion(v, f, w, g);
      if |f.category| < |g.category| { LongerContinues(f, g); }
      else if |g.category| < |f.category| { LongerContinues(g, f); }
      else { SameCategoryAgrees(f, g); }
    }
  }

  // ---- Collisions ----

  /** A price that the key writes as `p`. */
  function PriceFor(p: Option<Price>): Option<real> {
    match p
    case None => None
    case Some(q) =>
      var r := q.cents as real / 100.0;
      Some(if !q.negative then r else if q.cents == 0 then -0.001 else -r)
  }

  lemma PriceForRounds(p: Option<Price>)
    ensures Round(PriceFor(p)) == p
  {
    if p.Some? {
      var n := p.value.cents;
      var r := n as real / 100.0;
      assert r * 100.0 == n as real;
      assert Cents(r) == n;
      if n == 0 { assert 0.001 * 100.0 == 0.1; }
    }
  }

  /** When one category continues another, every filter of the longer one shares its key with one of the shorter one. */
  lemma ContinuationCollides(v: nat, c: string, g: Filter) returns (f: Filter)
    requires Continues(c, g.category)
    ensures f.category == c && Format(v, f) == Format(v, g)
  {
    var min, max, limit, offset, tail :| ContinuesBy(c, g.category, min, max, limit, offset, tail);
    PriceForRounds(min);
    PriceForRounds(max);
    var rest := tail + (":" + Fields(g));
    assert rest == ":" + rest[1..];
    f := Filter(c, rest[1..], PriceFor(min), PriceFor(max), limit, offset);
    var m := Middle(min, max, limit, offset);
    BodyIsFields(g);
    assert Body(f) == c + (m + rest);
    Assoc(m, tail, ":" + Fields(g));
    Assoc(c, m + tail, ":" + Fields(g));
    FormatIsBody(v, f);
    FormatIsBody(v, g);
  }

  /** Two different categories share some key if and only if one continues the other. */
  lemma CategoriesCollideExactly(c: string, d: string)
    requires c != d
    ensures (exists v, f: Filter, w, g: Filter :: f.category == c && g.category == d && Format(v, f) == Format(w, g)) <==> !Apart(c, d)
  {
    if v, f: Filter, w, g: Filter :| f.category == c && g.category == d && Format(v, f) == Format(w, g) {
      if Apart(c, d) { KeysAgree(v, f, w, g); }
    }
    if Continues(c, d) {
      var g := Filter(d, "", None, None, 0, 0);
      var f := ContinuationCollides(0, c, g);
      assert f.category == c && g.category == d && Format(0, f) == Format(0, g);
    }
    if Continues(d, c) {
      var f := Filter(c, "", None, None, 0, 0);
      var g := ContinuationCollides(0, d, f);
      assert f.category == c && g.category == d && Format(0, f) == Format(0, g);
    }
  }

  /** Every category is continued by others, so for every filter there is a different one with the same key. */
  lemma ColonCategoriesCollide(v: nat, f: Filter, more: string) returns (g: Filter, h: Filter)
    ensures g.category == f.category + (MiddleOf(f) + (":" + more)) && h.category == f.category && g != h && Format(v, g) == Format(v, h)
  {
    var d := f.category + (MiddleOf(f) + (":" + more));
    assert ContinuesBy(f.category, d, Round(f.min), Round(f.max), f.limit, f.offset, ":" + more);
    g := f.(category := d);
    h := ContinuationCollides(v, f.category, g);
  }

  predicate WholeCents(p: Option<real>) {
    p.Some? ==> p.value * 100.0 == (p.value * 100.0).Floor as real
  }

  /** Filters that a key tells apart from each other. */
  ghost predicate ToldApart(f: Filter, g: Filter) {
    f == g || (Apart(f.category, g.category) && WholeCents(f.min) && WholeCents(f.max) && WholeCents(g.min) && WholeCents(g.max))
  }

  lemma RoundingKeepsCents(p: Option<real>, q: Option<real>)
    requires WholeCents(p) && WholeCents(q) && Round(p) == Round(q)
    ensures p == q
  {
    if p.Some? {
      WholeCentsRound(p.value);
      WholeCentsRound(q.value);
    }
  }

  lemma WholeCentsRound(p: real)
    requires WholeCents(Some(p))
    ensures p * 100.0 == if Rounded(p).negative then 0.0 - Rounded(p).cents as real else Rounded(p).cents as real
  {
    if p < 0.0 {
      assert (-p) * 100.0 == -(p * 100.0);
      assert ((-p) * 100.0).Floor == -((p * 100.0).Floor);
    }
  }

  /** Hence a key identifies the version and, among filters with whole-cent prices and categories that stand apart, the filter. */
  lemma KeysIdentify(v: nat, f: Filter, w: nat, g: Filter)
    requires ToldApart(f, g)
    ensures Format(v, f) == Format(w, g) <==> v == w && f == g
  {
    if f == g {
      if Format(v, f) == Format(w, g) { KeyHasVersion(v, f, w, g); }
    } else {
      KeysAgree(v, f, w, g);
      if Blur(f) == Blur(g) {
        RoundingKeepsCents(f.min, g.min);
        RoundingKeepsCents(f.max, g.max);
      }
    }
  }

  /** Prices less than half a cent from the same cent share a key, though they are different filters. */
  lemma SubCentPricesCollide(v: nat, f: Filter)
    ensures Format(v, f.(min := Some(10.001))) == Format(v, f.(min := Some(10.004)))
  {
    assert Rounded(10.001) == Price(false, 1000) && Rounded(10.004) == Price(false, 1000);
  }
}
