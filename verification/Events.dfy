/** The payloads of listing.created and boost.created: how the repositories write them, what JSONB may make
    of the text, and how the analytics worker reads them back. */
module Events {
  import opened Wrappers
  import opened Decimal
  import opened Sequences

  type Field = (string, int)

  function Int(n: int): string {
    if n < 0 then "-" + Digits(-n) else Digits(n)
  }

  function ListingPayload(id: int, userId: int): string {
    "{" + "\"id\":" + Int(id) + "," + "\"user_id\":" + Int(userId) + "}"
  }

  function BoostPayload(id: int, listingId: int, userId: int): string {
    "{" + "\"id\":" + Int(id) + "," + "\"listing_id\":" + Int(listingId) + "," + "\"user_id\":" + Int(userId) + "}"
  }

  // ---- Any layout of a flat object ----

  predicate IsSpace(c: char) { c == ' ' || c == '\t' || c == '\n' || c == '\r' }

  predicate Blank(s: string) {
    forall i :: 0 <= i < |s| ==> IsSpace(s[i])
  }

  predicate PlainKey(s: string) {
    forall i :: 0 <= i < |s| ==> s[i] != '"' && s[i] != '\\'
  }

  /** One member and the white space around its four tokens. */
  datatype Member = Member(before: string, key: string, beforeColon: string, afterColon: string, value: int, after: string) {
    predicate Valid() {
      Blank(before) && PlainKey(key) && Blank(beforeColon) && Blank(afterColon) && Blank(after)
    }
  }

  function PutValue(m: Member, tail: string): string {
    m.beforeColon + (":" + (m.afterColon + (Int(m.value) + (m.after + tail))))
  }

  function PutMember(m: Member, tail: string): string {
    m.before + ("\"" + (m.key + ("\"" + PutValue(m, tail))))
  }

  function PutMembers(ms: seq<Member>): string
    requires ms != []
  {
    PutMember(ms[0], if |ms| == 1 then "}" else "," + PutMembers(ms[1..]))
  }

  function Render(ms: seq<Member>): string
    requires ms != []
  {
    "{" + PutMembers(ms)
  }

  function Fields(ms: seq<Member>): seq<Field> {
    seq(|ms|, i requires 0 <= i < |ms| => (ms[i].key, ms[i].value))
  }

  // ---- Reading ----

  function SkipSpace(s: string): string {
    if s != "" && IsSpace(s[0]) then SkipSpace(s[1..]) else s
  }

  /** The length of the key that ends at the first quote, if there is one. */
  function KeyLength(s: string): (n: Option<nat>)
    ensures n.Some? ==> n.value < |s|
  {
    if s == "" || s[0] == '\\' then None
    else if s[0] == '"' then Some(0)
    else
      match KeyLength(s[1..])
      case None => None
      case Some(n) => Some(n + 1)
  }

  /** A JSON integer: no leading zeros, an optional minus sign. */
  function ParseInt(s: string): Option<(int, string)> {
    var neg := s != "" && s[0] == '-';
    var t := if neg then s[1..] else s;
    var n := DigitRun(t);
    if n == 0 || (n > 1 && t[0] == '0') then None
    else Some((if neg then 0 - Value(t[..n]) else Value(t[..n]), t[n..]))
  }

  function ParseKey(s: string): (r: Option<(string, string)>)
    ensures r.Some? ==> |r.value.1| < |s|
  {
    SkipSpaceShrinks(s);
    var t := SkipSpace(s);
    if t == "" || t[0] != '"' then None else
      match KeyLength(t[1..])
      case None => None
      case Some(n) => Some((t[1..][..n], t[1..][n + 1..]))
  }

  function ParseValue(s: string): (r: Option<(int, string)>)
    ensures r.Some? ==> |r.value.1| < |s|
  {
    SkipSpaceShrinks(s);
    var t := SkipSpace(s);
    if t == "" || t[0] != ':' then None else
      SkipSpaceShrinks(t[1..]);
      match ParseInt(SkipSpace(t[1..]))
      case None => None
      case Some((v, rest)) =>
        SkipSpaceShrinks(rest);
        Some((v, SkipSpace(rest)))
  }

  function ParseMember(s: string): (r: Option<(Field, string)>)
    ensures r.Some? ==> |r.value.1| < |s|
  {
    match ParseKey(s)
    case None => None
    case Some((key, t)) =>
      match ParseValue(t)
      case None => None
      case Some((v, rest)) => Some(((key, v), rest))
  }

  lemma SkipSpaceShrinks(s: string)
    ensures |SkipSpace(s)| <= |s|
  {
  }

  function ParseMembers(s: string): Option<seq<Field>>
    decreases |s|
  {
    match ParseMember(s)
    case None => None
    case Some((f, rest)) =>
      if rest == "" then None
      else if rest[0] == '}' then (if SkipSpace(rest[1..]) == "" then Some([f]) else None)
      else if rest[0] == ',' then
        match ParseMembers(rest[1..])
        case None => None
        case Some(fs) => Some([f] + fs)
      else None
  }

  /** json.Unmarshal on flat objects of integers. */
  function Decode(s: string): Option<seq<Field>> {
    var t := SkipSpace(s);
    if t == "" || t[0] != '{' then None
    else
      var u := SkipSpace(t[1..]);
      if u != "" && u[0] == '}' then (if SkipSpace(u[1..]) == "" then Some([]) else None)
      else ParseMembers(t[1..])
  }

  /** The value Unmarshal leaves in a struct field: the last one given, zero when there is none. */
  function Lookup(fs: seq<Field>, name: string): int {
    if fs == [] then 0
    else if fs[|fs| - 1].0 == name then fs[|fs| - 1].1
    else Lookup(fs[..|fs| - 1], name)
  }

  // ---- Reading undoes writing ----

  lemma {:induction false} SkipBlank(w: string, s: string)
    requires Blank(w)
    ensures SkipSpace(w + s) == SkipSpace(s)
  {
    if w == "" {
      assert w + s == s;
    } else {
      assert (w + s)[1..] == w[1..] + s;
      SkipBlank(w[1..], s);
    }
  }

  lemma {:induction false} KeyEnds(key: string, rest: string)
    requires PlainKey(key)
    ensures KeyLength(key + ("\"" + rest)) == Some(|key|)
  {
    if key == "" {
      assert key + ("\"" + rest) == "\"" + rest;
    } else {
      assert (key + ("\"" + rest))[1..] == key[1..] + ("\"" + rest);
      KeyEnds(key[1..], rest);
    }
  }

  lemma IntParses(n: int, rest: string)
    requires rest == "" || !IsDigit(rest[0])
    ensures ParseInt(Int(n) + rest) == Some((n, rest))
  {
    var m: nat := if n < 0 then -n else n;
    var t := Digits(m) + rest;
    DigitsParse(m, rest);
    if n < 0 {
      assert ("-" + Digits(m)) + rest == "-" + t;
      assert ("-" + t)[1..] == t;
    } else {
      assert Int(n) + rest == t;
    }
  }

  lemma DigitsParse(m: nat, rest: string)
    requires rest == "" || !IsDigit(rest[0])
    ensures var t := Digits(m) + rest;
            DigitRun(t) == |Digits(m)| && t[..|Digits(m)|] == Digits(m) && t[|Digits(m)|..] == rest && Value(Digits(m)) == m
    ensures (Digits(m) + rest)[0] != '-' && (|Digits(m)| > 1 ==> (Digits(m) + rest)[0] != '0')
  {
    DigitRunStops(Digits(m), rest);
    ValueOfDigits(m);
  }

  lemma SplitAt(head: string, c: char, tail: string)
    ensures var s := head + ([c] + tail); s[..|head|] == head && s[|head| + 1..] == tail
  {
  }

  lemma KeyParses(before: string, key: string, rest: string)
    requires Blank(before) && PlainKey(key)
    ensures ParseKey(before + ("\"" + (key + ("\"" + rest)))) == Some((key, rest))
  {
    var quoted := key + ("\"" + rest);
    var t := "\"" + quoted;
    SkipBlank(before, t);
    KeyEnds(key, rest);
    assert t != "" && t[0] == '"' && SkipSpace(t) == t;
    assert t[1..] == quoted;
    SplitAt(key, '"', rest);
  }

  lemma ValueParses(m: Member, tail: string)
    requires m.Valid() && tail != "" && !IsSpace(tail[0]) && !IsDigit(tail[0])
    ensures ParseValue(PutValue(m, tail)) == Some((m.value, tail))
  {
    var number := Int(m.value) + (m.after + tail);
    SkipBlank(m.beforeColon, ":" + (m.afterColon + number));
    assert (":" + (m.afterColon + number))[1..] == m.afterColon + number;
    SkipBlank(m.afterColon, number);
    assert number[0] == Int(m.value)[0];
    assert (m.after + tail)[0] == if m.after == "" then tail[0] else m.after[0];
    IntParses(m.value, m.after + tail);
    SkipBlank(m.after, tail);
  }

  lemma MemberParses(m: Member, tail: string)
    requires m.Valid() && tail != "" && !IsSpace(tail[0]) && !IsDigit(tail[0])
    ensures ParseMember(PutMember(m, tail)) == Some(((m.key, m.value), tail))
  {
    KeyParses(m.before, m.key, PutValue(m, tail));
    ValueParses(m, tail);
  }

  lemma LastMemberParses(m: Member)
    requires m.Valid()
    ensures ParseMembers(PutMember(m, "}")) == Some([(m.key, m.value)])
  {
    MemberParses(m, "}");
    assert "}"[1..] == "";
  }

  lemma FirstMemberParses(m: Member, more: string, fs: seq<Field>)
    requires m.Valid() && ParseMembers(more) == Some(fs)
    ensures ParseMembers(PutMember(m, "," + more)) == Some([(m.key, m.value)] + fs)
  {
    MemberParses(m, "," + more);
    assert ("," + more)[1..] == more;
  }

  lemma FieldsCons(ms: seq<Member>)
    requires ms != []
    ensures Fields(ms) == [(ms[0].key, ms[0].value)] + Fields(ms[1..])
  {
  }

  lemma {:induction false} MembersParse(ms: seq<Member>)
    requires ms != [] && forall i :: 0 <= i < |ms| ==> ms[i].Valid()
    ensures ParseMembers(PutMembers(ms)) == Some(Fields(ms))
  {
    FieldsCons(ms);
    if |ms| == 1 {
      LastMemberParses(ms[0]);
      assert Fields(ms) == [(ms[0].key, ms[0].value)];
    } else {
      MembersParse(ms[1..]);
      FirstMemberParses(ms[0], PutMembers(ms[1..]), Fields(ms[1..]));
    }
  }

  /** Every layout of an object reads back as its fields. */
  lemma RenderDecodes(ms: seq<Member>)
    requires ms != [] && forall i :: 0 <= i < |ms| ==> ms[i].Valid()
    ensures Decode(Render(ms)) == Some(Fields(ms))
  {
    MembersParse(ms);
    MembersOpen(ms);
    ObjectDecodes(PutMembers(ms), Fields(ms));
  }

  lemma ObjectDecodes(members: string, fs: seq<Field>)
    requires SkipSpace(members) != "" && SkipSpace(members)[0] == '"' && ParseMembers(members) == Some(fs)
    ensures Decode("{" + members) == Some(fs)
  {
    var s := "{" + members;
    assert SkipSpace(s) == s && s[1..] == members;
  }

  lemma MembersOpen(ms: seq<Member>)
    requires ms != [] && ms[0].Valid()
    ensures SkipSpace(PutMembers(ms)) != "" && SkipSpace(PutMembers(ms))[0] == '"'
  {
    var tail := if |ms| == 1 then "}" else "," + PutMembers(ms[1..]);
    SkipBlank(ms[0].before, "\"" + (ms[0].key + ("\"" + PutValue(ms[0], tail))));
  }

  lemma {:induction false} LookupFinds(fs: seq<Field>, name: string, v: int)
    requires (name, v) in fs && forall u :: (name, u) in fs ==> u == v
    ensures Lookup(fs, name) == v
  {
    var n := |fs| - 1;
    if fs[n].0 == name {
      assert (name, fs[n].1) in fs;
    } else {
      assert fs == fs[..n] + [fs[n]];
      assert (name, v) in fs[..n];
      assert forall u :: (name, u) in fs[..n] ==> (name, u) in fs;
      LookupFinds(fs[..n], name, v);
    }
  }

  /** `text` is what a JSONB column may give back for an object with these fields: they may have been
      reordered, and white space may stand anywhere between the tokens. */
  ghost predicate JsonbText(fs: seq<Field>, text: string) {
    exists ms: seq<Member> :: ms != [] && (forall i :: 0 <= i < |ms| ==> ms[i].Valid())
      && multiset(Fields(ms)) == multiset(fs) && text == Render(ms)
  }

  function ListingFields(id: int, userId: int): seq<Field> { [("id", id), ("user_id", userId)] }

  function BoostFields(id: int, listingId: int, userId: int): seq<Field> {
    [("id", id), ("listing_id", listingId), ("user_id", userId)]
  }

  /** What Handle makes of the decoded event before it counts it. */
  datatype Verdict = Countable | Undecodable | Invalid

  function Judge(payload: string): Verdict {
    match Decode(payload)
    case None => Undecodable
    case Some(fs) => if Lookup(fs, "id") == 0 || Lookup(fs, "user_id") == 0 then Invalid else Countable
  }

  /** What a stored text reads back as: the same members, in some order. */
  lemma StoredTextDecodes(fs: seq<Field>, text: string) returns (read: seq<Field>)
    requires JsonbText(fs, text)
    ensures Decode(text) == Some(read) && multiset(read) == multiset(fs)
  {
    var ms: seq<Member> :| ms != [] && (forall i :: 0 <= i < |ms| ==> ms[i].Valid())
      && multiset(Fields(ms)) == multiset(fs) && text == Render(ms);
    RenderDecodes(ms);
    read := Fields(ms);
  }

  lemma LookupReordered(read: seq<Field>, fs: seq<Field>, name: string, v: int)
    requires multiset(read) == multiset(fs) && (name, v) in fs && forall u :: (name, u) in fs ==> u == v
    ensures Lookup(read, name) == v
  {
    forall u ensures (name, u) in read <==> (name, u) in fs {
      assert (name, u) in read <==> (name, u) in multiset(read);
      assert (name, u) in fs <==> (name, u) in multiset(fs);
    }
    LookupFinds(read, name, v);
  }

  lemma ListingFieldsUnique(id: int, userId: int)
    ensures var fs := ListingFields(id, userId);
            && ("id", id) in fs && (forall u :: ("id", u) in fs ==> u == id)
            && ("user_id", userId) in fs && (forall u :: ("user_id", u) in fs ==> u == userId)
  {
    var fs := ListingFields(id, userId);
    assert fs[0] == ("id", id) && fs[1] == ("user_id", userId);
  }

  lemma BoostFieldsUnique(id: int, listingId: int, userId: int)
    ensures var fs := BoostFields(id, listingId, userId);
            && ("id", id) in fs && (forall u :: ("id", u) in fs ==> u == id)
            && ("listing_id", listingId) in fs && (forall u :: ("listing_id", u) in fs ==> u == listingId)
            && ("user_id", userId) in fs && (forall u :: ("user_id", u) in fs ==> u == userId)
  {
    var fs := BoostFields(id, listingId, userId);
    assert fs[0] == ("id", id) && fs[1] == ("listing_id", listingId) && fs[2] == ("user_id", userId);
  }

  /** A listing.created payload, however JSONB lays it out, reads back as the same ids and is counted. */
  lemma ListingEventReadable(id: int, userId: int, text: string)
    requires id != 0 && userId != 0 && JsonbText(ListingFields(id, userId), text)
    ensures Decode(text).Some? && Lookup(Decode(text).value, "id") == id && Lookup(Decode(text).value, "user_id") == userId
    ensures Judge(text) == Countable
  {
    var fs := ListingFields(id, userId);
    var read := StoredTextDecodes(fs, text);
    ListingFieldsUnique(id, userId);
    LookupReordered(read, fs, "id", id);
    LookupReordered(read, fs, "user_id", userId);
  }

  lemma BoostEventReadable(id: int, listingId: int, userId: int, text: string)
    requires id != 0 && userId != 0 && JsonbText(BoostFields(id, listingId, userId), text)
    ensures Decode(text).Some? && Lookup(Decode(text).value, "id") == id && Lookup(Decode(text).value, "user_id") == userId
    ensures Lookup(Decode(text).value, "listing_id") == listingId
    ensures Judge(text) == Countable
  {
    var fs := BoostFields(id, listingId, userId);
    var read := StoredTextDecodes(fs, text);
    BoostFieldsUnique(id, listingId, userId);
    LookupReordered(read, fs, "id", id);
    LookupReordered(read, fs, "listing_id", listingId);
    LookupReordered(read, fs, "user_id", userId);
  }

  function Tight(key: string, value: int): Member { Member("", key, "", "", value, "") }

  lemma Regroup4(q: string, key: string, colon: string, v: string, tail: string)
    ensures q + (key + (q + (colon + (v + tail)))) == (q + key + (q + colon)) + v + tail
  {
    Assoc(q, colon, v + tail);
    Assoc(key, q + colon, v + tail);
    Assoc(q, key + (q + colon), v + tail);
    Assoc(q, key, q + colon);
    Assoc(q + key + (q + colon), v, tail);
  }

  lemma PutTight(key: string, value: int, tail: string)
    ensures PutMember(Tight(key, value), tail) == ("\"" + key + "\":") + Int(value) + tail
  {
    var v := Int(value);
    assert v + ("" + tail) == v + tail;
    assert PutValue(Tight(key, value), tail) == ":" + (v + tail);
    assert "\"" + ":" == "\":";
    Regroup4("\"", key, ":", v, tail);
  }

  lemma Regroup2(o: string, k1: string, v1: string, comma: string, k2: string, v2: string, c: string)
    ensures o + (k1 + v1 + (comma + (k2 + v2 + c))) == o + k1 + v1 + comma + k2 + v2 + c
  {
  }

  lemma Regroup3(o: string, k1: string, v1: string, comma: string, k2: string, v2: string, k3: string, v3: string, c: string)
    ensures o + (k1 + v1 + (comma + (k2 + v2 + (comma + (k3 + v3 + c))))) == o + k1 + v1 + comma + k2 + v2 + comma + k3 + v3 + c
  {
    Regroup2(o + k1 + v1 + comma, k2, v2, comma, k3, v3, c);
    Regroup2(o, k1, v1, comma, k2, v2, comma + (k3 + v3 + c));
  }

  lemma RenderListing(id: int, userId: int)
    ensures Render([Tight("id", id), Tight("user_id", userId)]) == ListingPayload(id, userId)
  {
    var b := Tight("user_id", userId);
    PutTight("user_id", userId, "}");
    var last := PutMembers([b]);
    PutTight("id", id, "," + last);
    assert [Tight("id", id), b][1..] == [b];
    KeyTexts();
    Regroup2("{", "\"id\":", Int(id), ",", "\"user_id\":", Int(userId), "}");
  }

  lemma KeyTexts()
    ensures "\"" + "id" + "\":" == "\"id\":"
    ensures "\"" + "user_id" + "\":" == "\"user_id\":"
    ensures "\"" + "listing_id" + "\":" == "\"listing_id\":"
  {
  }

  lemma RenderBoost(id: int, listingId: int, userId: int)
    ensures Render([Tight("id", id), Tight("listing_id", listingId), Tight("user_id", userId)]) == BoostPayload(id, listingId, userId)
  {
    var a, b, c := Tight("id", id), Tight("listing_id", listingId), Tight("user_id", userId);
    PutTight("user_id", userId, "}");
    PutTight("listing_id", listingId, "," + PutMembers([c]));
    PutTight("id", id, "," + PutMembers([b, c]));
    assert [a, b, c][1..] == [b, c] && [b, c][1..] == [c];
    KeyTexts();
    Regroup3("{", "\"id\":", Int(id), ",", "\"listing_id\":", Int(listingId), "\"user_id\":", Int(userId), "}");
  }

  lemma PlainKeys()
    ensures PlainKey("id") && PlainKey("listing_id") && PlainKey("user_id")
  {
  }

  lemma IsLayout(ms: seq<Member>, fs: seq<Field>, text: string)
    requires ms != [] && (forall i :: 0 <= i < |ms| ==> ms[i].Valid()) && Fields(ms) == fs && Render(ms) == text
    ensures JsonbText(fs, text)
  {
  }

  /** What the repositories write is one such layout. */
  lemma ListingPayloadIsLayout(id: int, userId: int)
    ensures JsonbText(ListingFields(id, userId), ListingPayload(id, userId))
  {
    PlainKeys();
    var a, b := Tight("id", id), Tight("user_id", userId);
    assert a.Valid() && b.Valid();
    RenderListing(id, userId);
    assert Fields([a, b]) == ListingFields(id, userId);
    IsLayout([a, b], ListingFields(id, userId), ListingPayload(id, userId));
  }

  lemma BoostPayloadIsLayout(id: int, listingId: int, userId: int)
    ensures JsonbText(BoostFields(id, listingId, userId), BoostPayload(id, listingId, userId))
  {
    PlainKeys();
    var a, b, c := Tight("id", id), Tight("listing_id", listingId), Tight("user_id", userId);
    assert a.Valid() && b.Valid() && c.Valid();
    RenderBoost(id, listingId, userId);
    assert Fields([a, b, c]) == BoostFields(id, listingId, userId);
    IsLayout([a, b, c], BoostFields(id, listingId, userId), BoostPayload(id, listingId, userId));
  }

  datatype DomainEvent = ListingCreated(id: int, userId: int) | BoostCreated(id: int, listingId: int, userId: int) {
    predicate Valid() { id != 0 && userId != 0 }

    function Topic(): string {
      if ListingCreated? then "listing.created" else "boost.created"
    }

    /** The Kafka key: the id of the listing or of the boost. */
    function Key(): string { Int(id) }

    function Payload(): string {
      match this
      case ListingCreated(i, u) => ListingPayload(i, u)
      case BoostCreated(i, l, u) => BoostPayload(i, l, u)
    }

    function Contents(): seq<Field> {
      match this
      case ListingCreated(i, u) => ListingFields(i, u)
      case BoostCreated(i, l, u) => BoostFields(i, l, u)
    }
  }

  /** The text reads back as this event. */
  predicate ReadsAs(text: string, e: DomainEvent) {
    && Decode(text).Some? && Lookup(Decode(text).value, "id") == e.id && Lookup(Decode(text).value, "user_id") == e.userId
    && (e.BoostCreated? ==> Lookup(Decode(text).value, "listing_id") == e.listingId)
  }

  lemma EventReadable(e: DomainEvent, text: string)
    requires e.Valid() && JsonbText(e.Contents(), text)
    ensures ReadsAs(text, e) && Judge(text) == Countable
  {
    match e
    case ListingCreated(i, u) => ListingEventReadable(i, u, text);
    case BoostCreated(i, l, u) => BoostEventReadable(i, l, u, text);
  }

  /** What is written is itself a text JSONB may give back. */
  lemma PayloadIsLayout(e: DomainEvent)
    ensures JsonbText(e.Contents(), e.Payload())
  {
    match e
    case ListingCreated(i, u) => ListingPayloadIsLayout(i, u);
    case BoostCreated(i, l, u) => BoostPayloadIsLayout(i, l, u);
  }
}
