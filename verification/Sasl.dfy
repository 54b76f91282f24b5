/** What a server reads in the line of each SASL mechanism, for every input of the client, and
    hence exactly when the fields the client put in come out again. */
module Sasl {
  import opened Base
  import opened Imap
  import opened Tasks

  const NUL: Byte := 0
  const SOH: Byte := 1
  const COMMA: Byte := 44
  const EQUALS: Byte := 61

  /** The parts of `bytes` between separators; there is always at least one. */
  function Split(bytes: Bytes, sep: Byte): (parts: seq<Bytes>)
    ensures parts != []
  {
    if bytes == [] then [[]]
    else
      var rest := Split(bytes[1..], sep);
      if bytes[0] == sep then [[]] + rest else [[bytes[0]] + rest[0]] + rest[1..]
  }

  function Join(parts: seq<Bytes>, sep: Byte): Bytes
    requires parts != []
  {
    if |parts| == 1 then parts[0] else parts[0] + [sep] + Join(parts[1..], sep)
  }

  lemma {:induction false} PartsAreFree(bytes: Bytes, sep: Byte)
    ensures forall part :: part in Split(bytes, sep) ==> sep !in part
  {
    if bytes == [] {
    } else {
      PartsAreFree(bytes[1..], sep);
    }
  }

  lemma {:induction false} SplitOne(part: Bytes, sep: Byte)
    requires sep !in part
    ensures Split(part, sep) == [part]
  {
    if part == [] {
    } else {
      SplitOne(part[1..], sep);
      assert part == [part[0]] + part[1..];
    }
  }

  lemma {:induction false} SplitFirst(part: Bytes, rest: Bytes, sep: Byte)
    requires sep !in part
    ensures Split(part + [sep] + rest, sep) == [part] + Split(rest, sep)
  {
    if part == [] {
      assert ([] + [sep] + rest)[1..] == rest;
    } else {
      SplitFirst(part[1..], rest, sep);
      assert (part + [sep] + rest)[1..] == part[1..] + [sep] + rest;
      assert part == [part[0]] + part[1..];
      assert Split(part + [sep] + rest, sep)[1..] == Split(rest, sep);
    }
  }

  lemma JoinMore(part: Bytes, rest: seq<Bytes>, sep: Byte)
    requires rest != []
    ensures Join([part] + rest, sep) == part + [sep] + Join(rest, sep)
  {
    assert ([part] + rest)[1..] == rest;
  }

  lemma {:induction false} SplitUndoesJoin(parts: seq<Bytes>, sep: Byte)
    requires parts != [] && forall part :: part in parts ==> sep !in part
    ensures Split(Join(parts, sep), sep) == parts
  {
    if |parts| == 1 {
      SplitOne(parts[0], sep);
    } else {
      SplitUndoesJoin(parts[1..], sep);
      SplitFirst(parts[0], Join(parts[1..], sep), sep);
    }
  }

  /** Joined parts are read back if and only if none of them holds the separator. */
  lemma {:induction false} ReadsBackIff(parts: seq<Bytes>, sep: Byte)
    requires parts != []
    ensures Split(Join(parts, sep), sep) == parts <==> forall part :: part in parts ==> sep !in part
  {
    if forall part :: part in parts ==> sep !in part {
      SplitUndoesJoin(parts, sep);
    } else {
      PartsAreFree(Join(parts, sep), sep);
    }
  }

  lemma {:induction false} SplitCounts(bytes: Bytes, sep: Byte)
    ensures |Split(bytes, sep)| == 1 + multiset(bytes)[sep]
  {
    if bytes == [] {
    } else {
      SplitCounts(bytes[1..], sep);
      assert bytes == [bytes[0]] + bytes[1..];
    }
  }

  lemma {:induction false} JoinCounts(parts: seq<Bytes>, sep: Byte)
    requires parts != []
    ensures multiset(Join(parts, sep))[sep] >= |parts| - 1
    ensures (exists part :: part in parts && sep in part) ==> multiset(Join(parts, sep))[sep] >= |parts|
  {
    if |parts| == 1 {
    } else {
      JoinCounts(parts[1..], sep);
      assert forall part :: part in parts ==> part == parts[0] || part in parts[1..];
    }
  }

  /** A separator inside a part always shows: there are too many fields then. */
  lemma ReadsBackOrMore(parts: seq<Bytes>, sep: Byte)
    requires parts != []
    ensures (forall part :: part in parts ==> sep !in part) ==> Split(Join(parts, sep), sep) == parts
    ensures (exists part :: part in parts && sep in part) ==> |Split(Join(parts, sep), sep)| > |parts|
  {
    ReadsBackIff(parts, sep);
    JoinCounts(parts, sep);
    SplitCounts(Join(parts, sep), sep);
  }

  lemma Printable(text: string, sep: Byte)
    requires forall i :: 0 <= i < |text| ==> text[i] as int < 128 && text[i] as int != sep as int
    ensures sep !in Ascii(text)
  {
  }

  // ----- PLAIN ---------------------------------------------------------------------------

  /** PLAIN as section 2 of RFC 4616 has it: identity to act as, login and password, of which
      the last two are not empty. */
  function ReadPlain(line: Bytes): Option<(Bytes, Bytes, Bytes)> {
    var fields := Split(line, NUL);
    if |fields| == 3 && fields[1] != [] && fields[2] != [] then Some((fields[0], fields[1], fields[2])) else None
  }

  lemma PlainJoins(login: Bytes, password: Bytes)
    ensures Join([[], login, password], NUL) == [0] + login + [0] + password
  {
    JoinMore(login, [password], NUL);
    JoinMore([], [login, password], NUL);
    assert [[], login, password] == [[]] + [login, password] && [login, password] == [login] + [password];
    assert Join([password], NUL) == password;
  }

  /** The login and the password are read if and only if they are not empty and hold no NUL;
      otherwise the line is malformed, and never read as somebody else's. */
  lemma {:induction false} PlainReading(login: Bytes, password: Bytes, ir: bool)
    ensures ReadPlain(PlainAuthenticate(login, password, ir).line.value) ==
            if login != [] && password != [] && NUL !in login && NUL !in password
            then Some(([], login, password)) else None
  {
    hide Split, Join;
    var parts := [[], login, password];
    assert PlainAuthenticate(login, password, ir).line.value == Join(parts, NUL) by {
      PlainJoins(login, password);
    }
    ReadsBackOrMore(parts, NUL);
    assert login in parts && password in parts;
  }

  // ----- XOAUTH2 -------------------------------------------------------------------------

  /** `field` without the key it starts with. */
  function Unprefixed(field: Bytes, key: Bytes): Option<Bytes> {
    if key <= field then Some(field[|key|..]) else None
  }

  lemma PrefixComesOff(key: Bytes, value: Bytes)
    ensures Unprefixed(key + value, key) == Some(value)
  {
    assert key <= key + value;
  }

  function ReadXOAuth2(line: Bytes): Option<(Bytes, Bytes)> {
    var fields := Split(line, SOH);
    if |fields| == 4 && fields[2] == [] && fields[3] == [] then
      var user, token := Unprefixed(fields[0], Ascii("user=")), Unprefixed(fields[1], Ascii("auth=Bearer "));
      if user.Some? && token.Some? then Some((user.value, token.value)) else None
    else None
  }

  lemma EndsJoin()
    ensures Join([[], []], SOH) == [1]
  {
    JoinMore([], [[]], SOH);
    var ends: seq<Bytes> := [[], []];
    assert ends == [[]] + [[]];
  }

  lemma XOAuth2Line(user: Bytes, token: Bytes, ir: bool)
    ensures XOAuth2Authenticate(user, token, ir).line.value
            == Join([Ascii("user=") + user, Ascii("auth=Bearer ") + token, [], []], SOH)
  {
    hide Ascii;
    var a, b := Ascii("user=") + user, Ascii("auth=Bearer ") + token;
    var ends: seq<Bytes> := [[], []];
    JoinMore(b, ends, SOH);
    JoinMore(a, [b] + ends, SOH);
    assert [a, b, [], []] == [a] + ([b] + ends);
    EndsJoin();
  }

  /** User and token are read if and only if neither holds a SOH; otherwise the line is
      malformed. */
  lemma {:induction false} XOAuth2Reading(user: Bytes, token: Bytes, ir: bool)
    ensures ReadXOAuth2(XOAuth2Authenticate(user, token, ir).line.value) ==
            if SOH !in user && SOH !in token then Some((user, token)) else None
  {
    hide Split, Join, Ascii, Unprefixed, XOAuth2Authenticate;
    var a, b := Ascii("user=") + user, Ascii("auth=Bearer ") + token;
    var parts := [a, b, [], []];
    XOAuth2Line(user, token, ir);
    ReadsBackOrMore(parts, SOH);
    PrefixComesOff(Ascii("user="), user);
    PrefixComesOff(Ascii("auth=Bearer "), token);
    Printable("user=", SOH);
    Printable("auth=Bearer ", SOH);
    assert a in parts && b in parts;
  }

  // ----- OAUTHBEARER -----------------------------------------------------------------------

  function Then(first: Byte, rest: Option<Bytes>): Option<Bytes> {
    if rest.Some? then Some([first] + rest.value) else None
  }

  /** The keys, byte by byte. */
  lemma KeysAre()
    ensures Ascii("n,a=") == [110, 44, 97, 61] && Ascii("n") == [110] && Ascii("a=") == [97, 61] && Ascii(",") == [44]
    ensures Ascii("host=") == [104, 111, 115, 116, 61] && Ascii("port=") == [112, 111, 114, 116, 61]
    ensures Ascii("user=") == [117, 115, 101, 114, 61]
    ensures Ascii("auth=Bearer ") == [97, 117, 116, 104, 61, 66, 101, 97, 114, 101, 114, 32]
  {
  }

  /** A saslname of section 4 of RFC 5801: `=2C` and `=3D` stand for comma and equals sign, in
      either case, and neither these two nor a NUL may stand for themselves. */
  function Decode(name: Bytes): Option<Bytes> {
    if name == [] then Some([])
    else if name[0] == NUL || name[0] == COMMA then None
    else if name[0] != EQUALS then Then(name[0], Decode(name[1..]))
    else if |name| < 3 then None
    else if name[1] == 50 && (name[2] == 67 || name[2] == 99) then Then(COMMA, Decode(name[3..]))
    else if name[1] == 51 && (name[2] == 68 || name[2] == 100) then Then(EQUALS, Decode(name[3..]))
    else None
  }

  lemma {:induction false} DecodeShrinks(name: Bytes)
    requires Decode(name).Some?
    ensures |Decode(name).value| <= |name|
    ensures EQUALS in name ==> |Decode(name).value| < |name|
  {
    if name == [] {
    } else if name[0] != EQUALS {
      DecodeShrinks(name[1..]);
    } else {
      DecodeShrinks(name[3..]);
    }
  }

  lemma {:induction false} PlainNameDecodes(name: Bytes)
    requires NUL !in name && COMMA !in name && EQUALS !in name
    ensures Decode(name) == Some(name)
  {
    if name == [] {
    } else {
      PlainNameDecodes(name[1..]);
      assert name == [name[0]] + name[1..];
    }
  }

  lemma {:induction false} DecodableNameIsFree(name: Bytes)
    requires Decode(name).Some?
    ensures NUL !in name && COMMA !in name
  {
    if name == [] {
    } else if name[0] != EQUALS {
      DecodableNameIsFree(name[1..]);
      assert name == [name[0]] + name[1..];
    } else {
      DecodableNameIsFree(name[3..]);
      assert name == [name[0], name[1], name[2]] + name[3..];
    }
  }

  /** A name means itself if and only if it holds no NUL, comma or equals sign. */
  lemma {:induction false} DecodesToItselfIff(name: Bytes)
    ensures Decode(name) == Some(name) <==> NUL !in name && COMMA !in name && EQUALS !in name
  {
    if Decode(name) == Some(name) {
      DecodeShrinks(name);
      DecodableNameIsFree(name);
    } else if NUL !in name && COMMA !in name && EQUALS !in name {
      PlainNameDecodes(name);
    }
  }

  function Header(user: Bytes): Bytes {
    Ascii("n,a=") + user + Ascii(",")
  }

  /** The identity in the header: no channel binding, then a name that is not empty. */
  function ReadHeader(header: Bytes): Option<Bytes> {
    var fields := Split(header, COMMA);
    if |fields| == 3 && fields[0] == Ascii("n") && fields[2] == [] then
      var name := Unprefixed(fields[1], Ascii("a="));
      if name.Some? && name.value != [] then Decode(name.value) else None
    else None
  }

  lemma HeaderJoins(user: Bytes)
    ensures Header(user) == Join([Ascii("n"), Ascii("a=") + user, []], COMMA)
  {
    var parts := [Ascii("n"), Ascii("a=") + user, []];
    JoinMore(Ascii("a=") + user, [[]], COMMA);
    JoinMore(Ascii("n"), [Ascii("a=") + user, []], COMMA);
    assert parts == [Ascii("n")] + [Ascii("a=") + user, []];
    assert [Ascii("a=") + user, []] == [Ascii("a=") + user] + [[]];
    assert Ascii("n,a=") == Ascii("n") + [COMMA] + Ascii("a=");
    assert Ascii(",") == [COMMA];
  }

  lemma {:induction false} HeaderReading(user: Bytes)
    ensures ReadHeader(Header(user)) == if user != [] then Decode(user) else None
  {
    hide Split, Join, Ascii, Unprefixed;
    var parts := [Ascii("n"), Ascii("a=") + user, []];
    HeaderJoins(user);
    ReadsBackOrMore(parts, COMMA);
    PrefixComesOff(Ascii("a="), user);
    Printable("n", COMMA);
    Printable("a=", COMMA);
    assert parts[1] in parts;
    if Decode(user).Some? {
      DecodableNameIsFree(user);
    }
  }

  lemma BearerJoins(a: Bytes, b: Bytes, c: Bytes, d: Bytes)
    ensures Join([a, b, c, d, [], []], SOH) == a + [1] + b + [1] + c + [1] + d + [1] + [1]
  {
    var parts: seq<Bytes> := [a, b, c, d, [], []];
    var ends: seq<Bytes> := [[], []];
    JoinMore(d, ends, SOH);
    JoinMore(c, [d] + ends, SOH);
    JoinMore(b, [c] + ([d] + ends), SOH);
    JoinMore(a, [b] + ([c] + ([d] + ends)), SOH);
    assert parts == [a] + ([b] + ([c] + ([d] + ends)));
    EndsJoin();
  }

  function BearerFields(user: Bytes, host: Bytes, port: nat, token: Bytes): (fields: seq<Bytes>)
    ensures fields != []
  {
    [Header(user), Ascii("host=") + host, Ascii("port=") + Decimal(port), Ascii("auth=Bearer ") + token, [], []]
  }

  lemma BearerLine(user: Bytes, host: Bytes, port: nat, token: Bytes, ir: bool)
    ensures OAuthBearerAuthenticate(user, host, port, token, ir).line.value
              == Join(BearerFields(user, host, port, token), SOH)
  {
    hide Ascii, Decimal, Join;
    BearerJoins(Header(user), Ascii("host=") + host, Ascii("port=") + Decimal(port), Ascii("auth=Bearer ") + token);
  }

  lemma BearerFieldsAreFree(user: Bytes, host: Bytes, port: nat, token: Bytes)
    ensures (forall part :: part in BearerFields(user, host, port, token) ==> SOH !in part) <==>
            SOH !in user && SOH !in host && SOH !in token
  {
    hide Ascii, Decimal;
    Printable("n,a=", SOH);
    Printable(",", SOH);
    Printable("host=", SOH);
    Printable("port=", SOH);
    Printable("auth=Bearer ", SOH);
    var parts := BearerFields(user, host, port, token);
    assert parts[0] in parts && parts[1] in parts && parts[3] in parts;
  }

  /** The port reads back: its decimal text has one meaning. */
  function Number(digits: Bytes): nat
    requires forall d :: d in digits ==> 48 <= d <= 57
  {
    if digits == [] then 0
    else
      var init, last := digits[..|digits| - 1], digits[|digits| - 1];
      assert last in digits && forall d :: d in init ==> d in digits;
      10 * Number(init) + (last as int - 48)
  }

  lemma {:induction false} DecimalReadsBack(n: nat)
    ensures Number(Decimal(n)) == n
  {
    if n < 10 {
      assert Decimal(n)[..0] == [];
    } else {
      DecimalReadsBack(n / 10);
      assert Decimal(n)[..|Decimal(n)| - 1] == Decimal(n / 10);
    }
  }

  /** What a value may hold: visible characters, space, tab, CR and LF. */
  predicate IsText(value: Bytes) {
    forall b :: b in value ==> 32 <= b <= 126 || b == 9 || b == 10 || b == 13
  }

  predicate IsDigits(value: Bytes) {
    value != [] && forall d :: d in value ==> 48 <= d <= 57
  }

  function ReadPort(field: Bytes): Option<nat> {
    var digits := Unprefixed(field, Ascii("port="));
    if digits.Some? && IsDigits(digits.value) then Some(Number(digits.value)) else None
  }

  function ReadText(field: Bytes, key: Bytes): Option<Bytes> {
    var value := Unprefixed(field, key);
    if value.Some? && IsText(value.value) then value else None
  }

  /** A server of section 3.1 of RFC 7628 that splits the line at SOH: identity, host, port and
      token. */
  function ReadBearer(line: Bytes): Option<(Bytes, Bytes, nat, Bytes)> {
    var fields := Split(line, SOH);
    if |fields| == 6 && fields[4] == [] && fields[5] == [] then
      var identity, host := ReadHeader(fields[0]), ReadText(fields[1], Ascii("host="));
      var port, token := ReadPort(fields[2]), ReadText(fields[3], Ascii("auth=Bearer "));
      if identity.Some? && host.Some? && port.Some? && token.Some?
      then Some((identity.value, host.value, port.value, token.value))
      else None
    else None
  }

  lemma PortReading(port: nat)
    ensures ReadPort(Ascii("port=") + Decimal(port)) == Some(port)
  {
    hide Ascii;
    PrefixComesOff(Ascii("port="), Decimal(port));
    DecimalReadsBack(port);
  }

  lemma TextReading(key: Bytes, value: Bytes)
    ensures ReadText(key + value, key) == if IsText(value) then Some(value) else None
  {
    PrefixComesOff(key, value);
  }

  /** What such a server reads, whatever the user, host and token are: the user as a saslname,
      and the rest as it is; or nothing. */
  lemma {:induction false} OAuthBearerReading(user: Bytes, host: Bytes, port: nat, token: Bytes, ir: bool)
    ensures ReadBearer(OAuthBearerAuthenticate(user, host, port, token, ir).line.value) ==
            if user != [] && SOH !in user && Decode(user).Some? && IsText(host) && IsText(token)
            then Some((Decode(user).value, host, port, token)) else None
  {
    hide OAuthBearerAuthenticate, Split, Join, Ascii, ReadHeader, ReadPort, ReadText, Header, Decode;
    var fields := BearerFields(user, host, port, token);
    BearerLine(user, host, port, token, ir);
    ReadsBackOrMore(fields, SOH);
    BearerFieldsAreFree(user, host, port, token);
    HeaderReading(user);
    TextReading(Ascii("host="), host);
    PortReading(port);
    TextReading(Ascii("auth=Bearer "), token);
  }

  /** It reads back what the client was given if and only if the user is not empty and holds no
      SOH, NUL, comma or equals sign, and host and token are text. */
  lemma {:induction false} OAuthBearerReadsBackIff(user: Bytes, host: Bytes, port: nat, token: Bytes, ir: bool)
    ensures ReadBearer(OAuthBearerAuthenticate(user, host, port, token, ir).line.value)
              == Some((user, host, port, token)) <==>
            && user != [] && SOH !in user && NUL !in user && COMMA !in user && EQUALS !in user
            && IsText(host) && IsText(token)
  {
    hide ReadBearer, OAuthBearerAuthenticate, Decode;
    OAuthBearerReading(user, host, port, token, ir);
    DecodesToItselfIff(user);
  }

  lemma EscapedCommaDecodes()
    ensures Decode([97, 61, 50, 67, 98]) == Some([97, 44, 98])
  {
    var name: Bytes, escape: Bytes := [97, 61, 50, 67, 98], [61, 50, 67, 98];
    PlainNameDecodes([98]);
    assert escape[3..] == [98] && Decode(escape) == Some([COMMA] + [98]);
    assert name[1..] == escape && Decode(name) == Then(97, Decode(escape));
    assert [97] + ([COMMA] + [98]) == [97, 44, 98];
  }

  /** An input on which somebody else is read: the user a=2Cb is taken for a,b. */
  lemma {:induction false} EscapeInUserNamesAnother(host: Bytes, port: nat, token: Bytes, ir: bool)
    requires IsText(host) && IsText(token)
    ensures ReadBearer(OAuthBearerAuthenticate([97, 61, 50, 67, 98], host, port, token, ir).line.value) ==
            Some(([97, 44, 98], host, port, token))
  {
    hide ReadBearer, OAuthBearerAuthenticate, Decode;
    EscapedCommaDecodes();
    OAuthBearerReading([97, 61, 50, 67, 98], host, port, token, ir);
  }

  /** An input on which nothing is read: a user with a comma. */
  lemma {:induction false} CommaInUserIsMalformed(host: Bytes, port: nat, token: Bytes, ir: bool)
    ensures ReadBearer(OAuthBearerAuthenticate([97, 44, 98], host, port, token, ir).line.value) == None
  {
    hide ReadBearer, OAuthBearerAuthenticate;
    OAuthBearerReading([97, 44, 98], host, port, token, ir);
  }
}
