/**
 * `JSON.stringify` and `JSON.parse` for the two shapes the application keeps in
 * storage: a list of role names and a user record. For strings without control
 * characters the encoding is the one `JSON.stringify` produces for them (no
 * white space, fields in declaration order); only `"` and `\` are escaped. The
 * decoder accepts exactly that encoding and fails on everything else.
 */
module Json {
  import opened Optional
  import opened Numerals
  import opened Text
  import opened AuthModel

  // ---- strings --------------------------------------------------------------

  /** The body of a JSON string literal: quote and backslash are escaped. */
  function EscapeChars(v: string): string {
    if v == [] then ""
    else (if v[0] == '"' || v[0] == '\\' then ['\\', v[0]] else [v[0]]) + EscapeChars(v[1..])
  }

  function EncodeString(v: string): (r: string)
    ensures |r| >= 2 && r[0] == '"'
  {
    "\"" + EscapeChars(v) + "\""
  }

  /** Reads a string body up to its closing quote: the text and what follows the quote. */
  function DecodeChars(s: string): (r: Option<(string, string)>)
    ensures r.Some? ==> |r.value.1| < |s|
  {
    if s == [] then None
    else if s[0] == '"' then Some(("", s[1..]))
    else if s[0] == '\\' then
      if |s| >= 2 && (s[1] == '"' || s[1] == '\\') then
        match DecodeChars(s[2..])
        case None => None
        case Some(p) => Some(([s[1]] + p.0, p.1))
      else None
    else
      match DecodeChars(s[1..])
      case None => None
      case Some(p) => Some(([s[0]] + p.0, p.1))
  }

  function DecodeString(s: string): (r: Option<(string, string)>)
    ensures r.Some? ==> |r.value.1| < |s|
  {
    if s != [] && s[0] == '"' then DecodeChars(s[1..]) else None
  }

  lemma AppendAssoc(a: string, b: string, c: string, d: string)
    ensures (a + (b + c)) + d == a + (b + (c + d))
  {
  }

  lemma AppendAssoc3(a: string, b: string, c: string, d: string)
    ensures a + b + c + d == a + (b + c + d)
  {
  }

  lemma DecodeCharsPlain(c: char, t: string, p: (string, string))
    requires c != '"' && c != '\\' && DecodeChars(t) == Some(p)
    ensures DecodeChars([c] + t) == Some(([c] + p.0, p.1))
  {
    assert ([c] + t)[1..] == t;
  }

  lemma DecodeCharsEscaped(c: char, t: string, p: (string, string))
    requires (c == '"' || c == '\\') && DecodeChars(t) == Some(p)
    ensures DecodeChars(['\\', c] + t) == Some(([c] + p.0, p.1))
  {
    assert (['\\', c] + t)[2..] == t;
  }

  lemma {:induction false} DecodeEscaped(v: string, rest: string)
    ensures DecodeChars(EscapeChars(v) + "\"" + rest) == Some((v, rest))
  {
    if v == [] {
      assert EscapeChars(v) + "\"" + rest == "\"" + rest;
      assert ("\"" + rest)[1..] == rest;
    } else {
      DecodeEscaped(v[1..], rest);
      var t := EscapeChars(v[1..]) + "\"" + rest;
      if v[0] == '"' || v[0] == '\\' {
        AppendAssoc3(['\\', v[0]], EscapeChars(v[1..]), "\"", rest);
        DecodeCharsEscaped(v[0], t, (v[1..], rest));
      } else {
        AppendAssoc3([v[0]], EscapeChars(v[1..]), "\"", rest);
        DecodeCharsPlain(v[0], t, (v[1..], rest));
      }
      assert [v[0]] + v[1..] == v;
    }
  }

  /** Decoding an encoded string gives the string and leaves what follows. */
  lemma StringRoundTrip(v: string, rest: string)
    ensures DecodeString(EncodeString(v) + rest) == Some((v, rest))
  {
    DecodeEscaped(v, rest);
    assert (EncodeString(v) + rest)[1..] == EscapeChars(v) + "\"" + rest;
  }

  lemma {:induction false} EscapedDecoded(s: string)
    requires DecodeChars(s).Some?
    ensures s == EscapeChars(DecodeChars(s).value.0) + "\"" + DecodeChars(s).value.1
  {
    if s[0] == '"' {
      assert s == "\"" + s[1..];
    } else if s[0] == '\\' {
      EscapedDecoded(s[2..]);
      var p := DecodeChars(s[2..]).value;
      var v := [s[1]] + p.0;
      assert v[0] == s[1] && v[1..] == p.0;
      assert s == ['\\', s[1]] + s[2..];
    } else {
      EscapedDecoded(s[1..]);
      var p := DecodeChars(s[1..]).value;
      var v := [s[0]] + p.0;
      assert v[0] == s[0] && v[1..] == p.0;
      assert s == [s[0]] + s[1..];
    }
  }

  /** The decoder accepts only the canonical encoding of what it returns. */
  lemma StringDecodedCanonical(s: string)
    requires DecodeString(s).Some?
    ensures s == EncodeString(DecodeString(s).value.0) + DecodeString(s).value.1
  {
    EscapedDecoded(s[1..]);
    assert s == "\"" + s[1..];
  }

  // ---- lists of strings ------------------------------------------------------

  function EncodeItems(vs: seq<string>): (r: string)
    requires |vs| >= 1
    ensures |r| >= 2 && r[0] == '"'
  {
    if |vs| == 1 then EncodeString(vs[0]) else EncodeString(vs[0]) + ("," + EncodeItems(vs[1..]))
  }

  /** `JSON.stringify(roles)`. */
  function EncodeStringArray(vs: seq<string>): string {
    if vs == [] then "[]" else "[" + (EncodeItems(vs) + "]")
  }

  /** Reads `"a","b",…"z"]` and returns the items and what follows the bracket. */
  function DecodeItems(s: string): (r: Option<(seq<string>, string)>)
    ensures r.Some? ==> |r.value.1| < |s|
    decreases |s|
  {
    match DecodeString(s)
    case None => None
    case Some(p) =>
      if p.1 != [] && p.1[0] == ']' then Some(([p.0], p.1[1..]))
      else if p.1 != [] && p.1[0] == ',' then
        match DecodeItems(p.1[1..])
        case None => None
        case Some(q) => Some(([p.0] + q.0, q.1))
      else None
  }

  function DecodeStringArrayPrefix(s: string): (r: Option<(seq<string>, string)>)
    ensures r.Some? ==> |r.value.1| < |s|
  {
    if s != [] && s[0] == '[' then
      if |s| >= 2 && s[1] == ']' then Some(([], s[2..])) else DecodeItems(s[1..])
    else None
  }

  /** `JSON.parse(text)` for a list of strings; `None` is a parse failure. */
  function DecodeStringArray(s: string): Option<seq<string>> {
    match DecodeStringArrayPrefix(s)
    case Some(p) => if p.1 == [] then Some(p.0) else None
    case None => None
  }


  lemma DecodeItemsLast(s: string, v: string, rest: string)
    requires DecodeString(s) == Some((v, "]" + rest))
    ensures DecodeItems(s) == Some(([v], rest))
  {
    assert ("]" + rest)[1..] == rest;
  }

  lemma DecodeItemsCons(s: string, v: string, tail: string, q: (seq<string>, string))
    requires DecodeString(s) == Some((v, "," + tail)) && DecodeItems(tail) == Some(q)
    ensures DecodeItems(s) == Some(([v] + q.0, q.1))
  {
    assert ("," + tail)[1..] == tail;
  }

  lemma {:induction false} ItemsRoundTrip(vs: seq<string>, rest: string)
    requires |vs| >= 1
    ensures DecodeItems(EncodeItems(vs) + ("]" + rest)) == Some((vs, rest))
  {
    if |vs| == 1 {
      StringRoundTrip(vs[0], "]" + rest);
      DecodeItemsLast(EncodeString(vs[0]) + ("]" + rest), vs[0], rest);
      assert [vs[0]] == vs;
    } else {
      var tail := EncodeItems(vs[1..]) + ("]" + rest);
      AppendAssoc(EncodeString(vs[0]), ",", EncodeItems(vs[1..]), "]" + rest);
      StringRoundTrip(vs[0], "," + tail);
      ItemsRoundTrip(vs[1..], rest);
      DecodeItemsCons(EncodeString(vs[0]) + ("," + tail), vs[0], tail, (vs[1..], rest));
      assert [vs[0]] + vs[1..] == vs;
    }
  }

  lemma ArrayPrefixRoundTrip(vs: seq<string>, rest: string)
    ensures DecodeStringArrayPrefix(EncodeStringArray(vs) + rest) == Some((vs, rest))
  {
    var s := EncodeStringArray(vs) + rest;
    if vs == [] {
      assert s == "[]" + rest;
      assert s[2..] == rest;
    } else {
      var body := EncodeItems(vs) + ("]" + rest);
      assert s == "[" + body;
      assert s[1..] == body;
      assert s[1] == body[0] == '"';
      ItemsRoundTrip(vs, rest);
    }
  }

  /** Decoding an encoded list of strings gives the list back. */
  lemma StringArrayRoundTrip(vs: seq<string>)
    ensures DecodeStringArray(EncodeStringArray(vs)) == Some(vs)
  {
    ArrayPrefixRoundTrip(vs, "");
    assert EncodeStringArray(vs) + "" == EncodeStringArray(vs);
  }

  lemma {:induction false} ItemsDecodedCanonical(s: string)
    requires DecodeItems(s).Some?
    ensures |DecodeItems(s).value.0| >= 1
    ensures s == EncodeItems(DecodeItems(s).value.0) + ("]" + DecodeItems(s).value.1)
    decreases |s|
  {
    var p := DecodeString(s).value;
    StringDecodedCanonical(s);
    if p.1[0] == ']' {
      assert DecodeItems(s).value == ([p.0], p.1[1..]);
      assert EncodeItems([p.0]) == EncodeString(p.0);
      assert p.1 == "]" + p.1[1..];
    } else {
      ItemsDecodedCanonical(p.1[1..]);
      var q := DecodeItems(p.1[1..]).value;
      var vs := [p.0] + q.0;
      assert DecodeItems(s).value == (vs, q.1);
      assert vs[0] == p.0 && vs[1..] == q.0;
      assert EncodeItems(vs) == EncodeString(p.0) + ("," + EncodeItems(q.0));
      assert p.1 == "," + p.1[1..];
      AppendAssoc(EncodeString(p.0), ",", EncodeItems(q.0), "]" + q.1);
    }
  }

  lemma ArrayPrefixDecodedCanonical(s: string)
    requires DecodeStringArrayPrefix(s).Some?
    ensures s == EncodeStringArray(DecodeStringArrayPrefix(s).value.0) + DecodeStringArrayPrefix(s).value.1
  {
    if |s| >= 2 && s[1] == ']' {
      assert DecodeStringArrayPrefix(s).value == ([], s[2..]);
      assert s == "[]" + s[2..];
    } else {
      assert DecodeStringArrayPrefix(s) == DecodeItems(s[1..]);
      BracketedItemsCanonical(s);
    }
  }

  lemma BracketedItemsCanonical(s: string)
    requires s != [] && s[0] == '[' && DecodeItems(s[1..]).Some?
    ensures s == EncodeStringArray(DecodeItems(s[1..]).value.0) + DecodeItems(s[1..]).value.1
  {
    var t := s[1..];
    ItemsDecodedCanonical(t);
    var q := DecodeItems(t).value;
    assert EncodeStringArray(q.0) == "[" + (EncodeItems(q.0) + "]");
    assert s == "[" + t;
    AppendAssoc("[", EncodeItems(q.0), "]", q.1);
  }



  /** The decoder accepts only the canonical encoding of the list it returns. */
  lemma StringArrayDecodedCanonical(s: string)
    requires DecodeStringArray(s).Some?
    ensures EncodeStringArray(DecodeStringArray(s).value) == s
  {
    ArrayPrefixDecodedCanonical(s);
    assert DecodeStringArrayPrefix(s).value.1 == [];
  }

  // ---- integers ---------------------------------------------------------------

  /** The number of leading digits of `s`. */
  function SpanDigits(s: string): (n: nat)
    ensures n <= |s| && AllDigits(s[..n])
    ensures n < |s| ==> !IsDigit(s[n])
  {
    if s != [] && IsDigit(s[0]) then
      var n := SpanDigits(s[1..]) + 1;
      assert s[..n] == [s[0]] + s[1..][..n - 1];
      n
    else 0
  }

  lemma {:induction false} SpanDigitsOf(d: string, rest: string)
    requires AllDigits(d)
    requires rest == [] || !IsDigit(rest[0])
    ensures SpanDigits(d + rest) == |d|
  {
    if d != [] {
      SpanDigitsOf(d[1..], rest);
      assert (d + rest)[1..] == d[1..] + rest;
    } else {
      assert d + rest == rest;
    }
  }

  /** Reads a run of digits without leading zero and returns what follows it. */
  function DecodeDigits(t: string): (r: Option<(nat, string)>)
    ensures r.Some? ==> |r.value.1| < |t|
  {
    var n := SpanDigits(t);
    if n == 0 || (n > 1 && t[0] == '0') then None else Some((DigitsValue(t[..n]), t[n..]))
  }

  function EncodeInt(i: int): string {
    IntText(i)
  }

  /** Reads an integer without leading zeros (and no `-0`) and returns what follows it. */
  function DecodeInt(s: string): (r: Option<(int, string)>)
    ensures r.Some? ==> |r.value.1| < |s|
  {
    if s != [] && s[0] == '-' then
      match DecodeDigits(s[1..])
      case None => None
      case Some(p) => if p.0 == 0 then None else Some((-(p.0 as int), p.1))
    else
      match DecodeDigits(s)
      case None => None
      case Some(p) => Some((p.0 as int, p.1))
  }

  lemma DigitsRoundTrip(m: nat, rest: string)
    requires rest == [] || !IsDigit(rest[0])
    ensures DecodeDigits(NatText(m) + rest) == Some((m, rest))
  {
    var d := NatText(m);
    SpanDigitsOf(d, rest);
    NatTextValue(m);
    assert (d + rest)[..|d|] == d && (d + rest)[|d|..] == rest;
  }

  lemma DecodeNegative(t: string, m: nat, rest: string)
    requires DecodeDigits(t) == Some((m, rest)) && m != 0
    ensures DecodeInt("-" + t) == Some((-(m as int), rest))
  {
    assert ("-" + t)[1..] == t;
  }

  lemma DecodeNonNegative(s: string, m: nat, rest: string)
    requires s != [] && s[0] != '-' && DecodeDigits(s) == Some((m, rest))
    ensures DecodeInt(s) == Some((m as int, rest))
  {
  }

  lemma IntRoundTrip(i: int, rest: string)
    requires rest == [] || !IsDigit(rest[0])
    ensures DecodeInt(EncodeInt(i) + rest) == Some((i, rest))
  {
    if i < 0 {
      NegativeRoundTrip(-i, rest);
    } else {
      NonNegativeRoundTrip(i, rest);
    }
  }

  lemma NegativeRoundTrip(m: nat, rest: string)
    requires m != 0 && (rest == [] || !IsDigit(rest[0]))
    ensures DecodeInt("-" + NatText(m) + rest) == Some((-(m as int), rest))
  {
    var d := NatText(m);
    DigitsRoundTrip(m, rest);
    DecodeNegative(d + rest, m, rest);
    assert "-" + d + rest == "-" + (d + rest);
  }

  lemma NonNegativeRoundTrip(m: nat, rest: string)
    requires rest == [] || !IsDigit(rest[0])
    ensures DecodeInt(NatText(m) + rest) == Some((m as int, rest))
  {
    var d := NatText(m);
    DigitsRoundTrip(m, rest);
    assert (d + rest)[0] == d[0];
    DecodeNonNegative(d + rest, m, rest);
  }

  lemma DigitsDecodedCanonical(t: string)
    requires DecodeDigits(t).Some?
    ensures t == NatText(DecodeDigits(t).value.0) + DecodeDigits(t).value.1
  {
    var n := SpanDigits(t);
    ValueNatText(t[..n]);
    assert t == t[..n] + t[n..];
  }

  lemma IntDecodedCanonical(s: string)
    requires DecodeInt(s).Some?
    ensures s == EncodeInt(DecodeInt(s).value.0) + DecodeInt(s).value.1
  {
    if s != [] && s[0] == '-' {
      DigitsDecodedCanonical(s[1..]);
      assert s == "-" + s[1..];
    } else {
      DigitsDecodedCanonical(s);
    }
  }

  // ---- user records -----------------------------------------------------------

  const IdKey := "{\"id\":"
  const UsernameKey := ",\"username\":"
  const EmailKey := ",\"email\":"
  const DocumentKey := ",\"document\":"
  const RolesKey := ",\"roles\":"

  /** `JSON.stringify(user)`. */
  function EncodeUser(u: User): string {
    IdKey + (EncodeInt(u.id)
    + (UsernameKey + (EncodeString(u.username)
    + (EmailKey + (EncodeString(u.email)
    + (DocumentKey + (EncodeString(u.document)
    + (RolesKey + (EncodeStringArray(u.roles) + "}")))))))))
  }

  function Expect(s: string, lit: string): (r: Option<string>)
    ensures r.Some? ==> s == lit + r.value
  {
    if StartsWith(s, lit) then
      assert s == s[..|lit|] + s[|lit|..];
      Some(s[|lit|..])
    else None
  }

  lemma ExpectLiteral(lit: string, rest: string)
    ensures Expect(lit + rest, lit) == Some(rest)
  {
    assert (lit + rest)[..|lit|] == lit;
    assert (lit + rest)[|lit|..] == rest;
  }

  /** A key followed by a string value. */
  function StringField(s: string, key: string): Option<(string, string)> {
    match Expect(s, key)
    case None => None
    case Some(t) => DecodeString(t)
  }

  lemma StringFieldRoundTrip(key: string, v: string, rest: string)
    ensures StringField(key + (EncodeString(v) + rest), key) == Some((v, rest))
  {
    ExpectLiteral(key, EncodeString(v) + rest);
    StringRoundTrip(v, rest);
  }

  lemma StringFieldCanonical(s: string, key: string)
    requires StringField(s, key).Some?
    ensures s == key + (EncodeString(StringField(s, key).value.0) + StringField(s, key).value.1)
  {
    StringDecodedCanonical(Expect(s, key).value);
  }

  /** `JSON.parse(text)` for a user record; `None` is a parse failure. */
  function DecodeUser(s: string): Option<User> {
    match Expect(s, IdKey)
    case None => None
    case Some(t) =>
      match DecodeInt(t)
      case None => None
      case Some(p) => DecodeAfterId(p.0, p.1)
  }

  function DecodeAfterId(id: int, s: string): Option<User> {
    match StringField(s, UsernameKey)
    case None => None
    case Some(p) => DecodeAfterUsername(id, p.0, p.1)
  }

  function DecodeAfterUsername(id: int, username: string, s: string): Option<User> {
    match StringField(s, EmailKey)
    case None => None
    case Some(p) => DecodeAfterEmail(id, username, p.0, p.1)
  }

  function DecodeAfterEmail(id: int, username: string, email: string, s: string): Option<User> {
    match StringField(s, DocumentKey)
    case None => None
    case Some(p) => DecodeRoles(User(id, username, email, p.0, []), p.1)
  }

  /** The last field, the roles, and the closing brace that must end the text. */
  function DecodeRoles(u: User, s: string): Option<User> {
    match Expect(s, RolesKey)
    case None => None
    case Some(t) =>
      match DecodeStringArrayPrefix(t)
      case None => None
      case Some(p) => if p.1 == "}" then Some(u.(roles := p.0)) else None
  }

  /** Decoding an encoded user gives the user back. */
  lemma UserRoundTrip(u: User)
    ensures DecodeUser(EncodeUser(u)) == Some(u)
  {
    var username := UsernameKey + (EncodeString(u.username) + (EmailKey + (EncodeString(u.email)
      + (DocumentKey + (EncodeString(u.document) + (RolesKey + (EncodeStringArray(u.roles) + "}")))))));
    ExpectLiteral(IdKey, EncodeInt(u.id) + username);
    IntRoundTrip(u.id, username);
    AfterIdRoundTrip(u);
  }

  lemma AfterIdRoundTrip(u: User)
    ensures DecodeAfterId(u.id, UsernameKey + (EncodeString(u.username) + (EmailKey + (EncodeString(u.email)
      + (DocumentKey + (EncodeString(u.document) + (RolesKey + (EncodeStringArray(u.roles) + "}")))))))) == Some(u)
  {
    var email := EmailKey + (EncodeString(u.email)
      + (DocumentKey + (EncodeString(u.document) + (RolesKey + (EncodeStringArray(u.roles) + "}")))));
    StringFieldRoundTrip(UsernameKey, u.username, email);
    AfterUsernameRoundTrip(u);
  }

  lemma AfterUsernameRoundTrip(u: User)
    ensures DecodeAfterUsername(u.id, u.username, EmailKey + (EncodeString(u.email)
      + (DocumentKey + (EncodeString(u.document) + (RolesKey + (EncodeStringArray(u.roles) + "}")))))) == Some(u)
  {
    var document := DocumentKey + (EncodeString(u.document) + (RolesKey + (EncodeStringArray(u.roles) + "}")));
    StringFieldRoundTrip(EmailKey, u.email, document);
    AfterEmailRoundTrip(u);
  }

  lemma AfterEmailRoundTrip(u: User)
    ensures DecodeAfterEmail(u.id, u.username, u.email,
      DocumentKey + (EncodeString(u.document) + (RolesKey + (EncodeStringArray(u.roles) + "}")))) == Some(u)
  {
    var roles := RolesKey + (EncodeStringArray(u.roles) + "}");
    StringFieldRoundTrip(DocumentKey, u.document, roles);
    RolesRoundTrip(User(u.id, u.username, u.email, u.document, []), u.roles);
  }

  lemma RolesRoundTrip(u: User, roles: seq<string>)
    ensures DecodeRoles(u, RolesKey + (EncodeStringArray(roles) + "}")) == Some(u.(roles := roles))
  {
    ExpectLiteral(RolesKey, EncodeStringArray(roles) + "}");
    ArrayPrefixRoundTrip(roles, "}");
  }

  /** The decoder accepts only the canonical encoding of the user it returns. */
  lemma UserDecodedCanonical(s: string)
    requires DecodeUser(s).Some?
    ensures EncodeUser(DecodeUser(s).value) == s
  {
    var t := Expect(s, IdKey).value;
    var p := DecodeInt(t).value;
    IntDecodedCanonical(t);
    var pu := StringField(p.1, UsernameKey).value;
    StringFieldCanonical(p.1, UsernameKey);
    var pe := StringField(pu.1, EmailKey).value;
    StringFieldCanonical(pu.1, EmailKey);
    var pd := StringField(pe.1, DocumentKey).value;
    StringFieldCanonical(pe.1, DocumentKey);
    var r := Expect(pd.1, RolesKey).value;
    ArrayPrefixDecodedCanonical(r);
  }
}
