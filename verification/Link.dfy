/** File links: printing them, parsing them, and that each undoes the other. */
module Links {

  import opened Base
  import opened ByteStrings
  import opened Endpoints
  import opened FieldLists
  import opened Text
  import Base32

  const HASH_LENGTH: nat := 16
  const AICH_LENGTH: nat := 20
  const MAX_SIZE: nat := 0x40_0000_0000

  const BAR: byte := 124
  const COLON: byte := 58
  const COMMA: byte := 44
  const SLASH: byte := 47
  const BACKSLASH: byte := 92
  const UNDERSCORE: byte := 95

  /** ed2k:// */
  const SCHEME: Bytes := [101, 100, 50, 107, 58, 47, 47]
  /** file */
  const FILE: Bytes := [102, 105, 108, 101]
  /** / */
  const END: Bytes := [47]
  /** p= */
  const PARTS: Bytes := [112, 61]
  /** h= */
  const AICH: Bytes := [104, 61]
  /** sources, */
  const SOURCES: Bytes := [115, 111, 117, 114, 99, 101, 115, 44]

  datatype Link = Link(name: Bytes, size: nat, hash: Bytes, pieceHashes: seq<Bytes>, aichHash: Bytes,
                       sources: seq<Endpoint>)

  // ---------------------------------------------------------------------------
  // Parsing
  // ---------------------------------------------------------------------------

  function ParsePort(v: Bytes): Option<uint16> {
    match ToInt(v)
    case None => None
    case Some(n) => if n == 0 || n > 0xffff then None else Some(n)
  }

  function ParseSize(v: Bytes): Option<nat> {
    match ToInt(v)
    case None => None
    case Some(n) => if n == 0 || n >= MAX_SIZE then None else Some(n)
  }

  function ParseHash(v: Bytes): Option<Bytes> {
    if |v| == 2 * HASH_LENGTH then FromHex(v) else None
  }

  /** Directory separators in a name become underscores. */
  function Sanitize(name: Bytes): (r: Bytes)
    ensures |r| == |name|
    ensures forall i :: 0 <= i < |r| ==>
              r[i] == if name[i] == SLASH || name[i] == BACKSLASH then UNDERSCORE else name[i]
  {
    if name == [] then []
    else [if name[0] == SLASH || name[0] == BACKSLASH then UNDERSCORE else name[0]] + Sanitize(name[1..])
  }

  function ParseCrypt(v: Bytes): Option<uint16> {
    match ToInt(v)
    case None => None
    case Some(n) => if n > 0xffff then None else Some(n)
  }

  function EndpointOf(fields: seq<Bytes>): Option<Endpoint> {
    if |fields| < 2 || |fields| > 4 then None
    else match ParsePort(fields[1])
      case None => None
      case Some(port) =>
        var crypt := if |fields| >= 3 then ParseCrypt(fields[2]) else Some(0);
        var userHash := if |fields| == 4 then ParseHash(fields[3]) else Some([]);
        if crypt.Some? && userHash.Some?
        then Some(Endpoint(PercentDecode(fields[0]), port, crypt.value, userHash.value))
        else None
  }

  function ParseEndpoint(v: Bytes): Option<Endpoint> {
    EndpointOf(Fields(v, COLON))
  }

  /** Parses every field; None when one cannot be parsed. */
  function ParseEach<T>(fields: seq<Bytes>, parse: Bytes -> Option<T>): Option<seq<T>> {
    if |fields| == 0 then Some([])
    else match parse(fields[0])
      case None => None
      case Some(x) => match ParseEach(fields[1..], parse)
        case None => None
        case Some(rest) => Some([x] + rest)
  }

  function ParseParts(v: Bytes): Option<seq<Bytes>> {
    var fields := Fields(v, COLON);
    if |fields| == 0 then None else ParseEach(fields, ParseHash)
  }

  function ParseAich(v: Bytes): Option<Bytes> {
    match Base32.Decode(v)
    case None => None
    case Some(hash) => if |hash| == AICH_LENGTH then Some(hash) else None
  }

  function ParseSources(v: Bytes): Option<seq<Endpoint>> {
    ParseEach(Fields(v, COMMA), ParseEndpoint)
  }

  predicate Tagged(option: Bytes, tag: Bytes) {
    |option| >= |tag| && option[..|tag|] == tag
  }

  /** An option adds to the link; an unknown one is ignored. */
  function ParseOption(l: Link, option: Bytes): Option<Link> {
    if Tagged(option, PARTS) then
      match ParseParts(option[|PARTS|..])
      case None => None
      case Some(hashes) => Some(l.(pieceHashes := l.pieceHashes + hashes))
    else if Tagged(option, AICH) then
      match ParseAich(option[|AICH|..])
      case None => None
      case Some(hash) => Some(l.(aichHash := hash))
    else if Tagged(option, SOURCES) then
      match ParseSources(option[|SOURCES|..])
      case None => None
      case Some(sources) => Some(l.(sources := l.sources + sources))
    else Some(l)
  }

  function ParseOptions(l: Link, fields: seq<Bytes>): Option<Link>
    decreases |fields|
  {
    if |fields| == 0 then Some(l)
    else if fields[0] == END then ParseOptions(l, fields[1..])
    else match ParseOption(l, fields[0])
      case None => None
      case Some(l1) => ParseOptions(l1, fields[1..])
  }

  function ParseFile(fields: seq<Bytes>): Option<Link> {
    if |fields| < 6 || fields[0] != SCHEME || fields[1] != FILE then None
    else
      var name, size, hash := Sanitize(PercentDecode(fields[2])), ParseSize(fields[3]), ParseHash(fields[4]);
      if name == [] || size == None || hash == None then None
      else ParseOptions(Link(name, size.value, hash.value, [], [], []), fields[5..])
  }

  function Lower(v: Bytes): (r: Bytes)
    ensures |r| == |v| && forall i :: 0 <= i < |v| ==> r[i] == if 65 <= v[i] <= 90 then v[i] + 32 else v[i]
  {
    if v == [] then [] else [if 65 <= v[0] <= 90 then v[0] + 32 else v[0]] + Lower(v[1..])
  }

  /** Every occurrence, left to right, without overlap. */
  function ReplaceAll(v: Bytes, from: Bytes, to: Bytes): Bytes
    requires from != []
    decreases |v|
  {
    if |v| < |from| then v
    else if v[..|from|] == from then to + ReplaceAll(v[|from|..], from, to)
    else [v[0]] + ReplaceAll(v[1..], from, to)
  }

  /** An escaped bar: %7c */
  const ESCAPED_BAR: Bytes := [37, 55, 99]

  /** A link that escapes its first bar escapes all of them. */
  function Normalize(uri: Bytes): Bytes {
    var prefix := SCHEME + ESCAPED_BAR;
    if |uri| >= |prefix| && Lower(uri[..|prefix|]) == prefix then
      ReplaceAll(ReplaceAll(uri, [37, 55, 67], [BAR]), [37, 55, 99], [BAR])
    else uri
  }

  /** The file link; None when the text is not one, or is malformed. */
  function Parse(uri: Bytes): Option<Link> {
    ParseFile(Fields(Normalize(uri), BAR))
  }

  // ---------------------------------------------------------------------------
  // Printing
  // ---------------------------------------------------------------------------

  function Texts<T>(xs: seq<T>, text: T -> Bytes): (r: seq<Bytes>)
    ensures |r| == |xs| && forall i :: 0 <= i < |xs| ==> r[i] == text(xs[i])
  {
    seq(|xs|, i requires 0 <= i < |xs| => text(xs[i]))
  }

  function EndpointFields(e: Endpoint): seq<Bytes> {
    [PercentEncode(e.host), ToDecimal(e.port)]
    + (if e.cryptOptions != 0 || e.userHash != [] then [ToDecimal(e.cryptOptions)] else [])
    + (if e.userHash != [] then [ToHex(e.userHash)] else [])
  }

  function EndpointText(e: Endpoint): Bytes {
    Join(EndpointFields(e), COLON)
  }

  function PartsOption(l: Link): seq<Bytes> {
    if l.pieceHashes == [] then [] else [PARTS + Join(Texts(l.pieceHashes, ToHex), COLON)]
  }

  function AichOption(l: Link): seq<Bytes> {
    if l.aichHash == [] then [] else [AICH + Base32.Encode(l.aichHash)]
  }

  function SourcesOption(l: Link): seq<Bytes> {
    if l.sources == [] then [] else [SOURCES + Join(Texts(l.sources, EndpointText), COMMA)]
  }

  function Options(l: Link): seq<Bytes> {
    PartsOption(l) + (AichOption(l) + (SourcesOption(l) + [END]))
  }

  function Heading(l: Link): seq<Bytes> {
    [SCHEME, FILE, PercentEncode(l.name), ToDecimal(l.size), ToHex(l.hash)]
  }

  function LinkFields(l: Link): seq<Bytes> {
    Heading(l) + Options(l)
  }

  function Print(l: Link): Bytes {
    Join(LinkFields(l), BAR)
  }

  // ---------------------------------------------------------------------------
  // Printed links parse
  // ---------------------------------------------------------------------------

  predicate ValidEndpoint(e: Endpoint) {
    e.host != [] && e.port != 0 && (e.userHash == [] || |e.userHash| == HASH_LENGTH)
  }

  predicate ValidHash(h: Bytes) {
    |h| == HASH_LENGTH
  }

  predicate ValidLink(l: Link) {
    && l.name != [] && SLASH !in l.name && BACKSLASH !in l.name
    && 0 < l.size < MAX_SIZE && ValidHash(l.hash)
    && (forall i :: 0 <= i < |l.pieceHashes| ==> ValidHash(l.pieceHashes[i]))
    && (l.aichHash == [] || |l.aichHash| == AICH_LENGTH)
    && (forall i :: 0 <= i < |l.sources| ==> ValidEndpoint(l.sources[i]))
  }

  /** The separators of a link; none is a letter, a digit or a percent sign. */
  predicate Separator(c: byte) {
    c == BAR || c == COLON || c == COMMA
  }

  lemma {:induction false} HexWhole(h: Bytes, sep: byte)
    requires Separator(sep)
    ensures Avoids(ToHex(h), sep) && (h != [] ==> Whole(ToHex(h), sep))
  {
    HexAlphanumeric(h);
  }

  lemma {:induction false} DecimalWhole(n: nat, sep: byte)
    requires Separator(sep)
    ensures Whole(ToDecimal(n), sep)
  {
    DecimalDigits(n);
  }

  lemma PercentWhole(v: Bytes, sep: byte)
    requires Separator(sep)
    ensures Avoids(PercentEncode(v), sep) && (v != [] ==> Whole(PercentEncode(v), sep))
  {
  }

  lemma HashBack(h: Bytes)
    requires ValidHash(h)
    ensures ParseHash(ToHex(h)) == Some(h)
  {
    HexRoundTrip(h);
  }

  lemma EndpointFieldsWhole(e: Endpoint, sep: byte)
    requires Separator(sep) && e.host != []
    ensures var fs := EndpointFields(e); forall i :: 0 <= i < |fs| ==> Whole(fs[i], sep)
  {
    PercentWhole(e.host, sep);
    DecimalWhole(e.port, sep);
    DecimalWhole(e.cryptOptions, sep);
    HexWhole(e.userHash, sep);
  }

  lemma EndpointOfFields(e: Endpoint)
    requires ValidEndpoint(e)
    ensures EndpointOf(EndpointFields(e)) == Some(e)
  {
    PercentRoundTrip(e.host);
    NumbersBack(e);
    if e.userHash != [] {
      HashBack(e.userHash);
    }
  }

  lemma NumbersBack(e: Endpoint)
    ensures e.port != 0 ==> ParsePort(ToDecimal(e.port)) == Some(e.port)
    ensures ParseCrypt(ToDecimal(e.cryptOptions)) == Some(e.cryptOptions)
  {
    DecimalRoundTrip(e.port);
    DecimalRoundTrip(e.cryptOptions);
  }

  lemma EndpointBack(e: Endpoint)
    requires ValidEndpoint(e)
    ensures ParseEndpoint(EndpointText(e)) == Some(e)
  {
    EndpointFieldsWhole(e, COLON);
    SplitsBack(EndpointFields(e), COLON);
    EndpointOfFields(e);
  }

  lemma EndpointTextWhole(e: Endpoint, sep: byte)
    requires Separator(sep) && sep != COLON && ValidEndpoint(e)
    ensures Whole(EndpointText(e), sep)
  {
    EndpointFieldsWhole(e, sep);
    JoinAvoids(EndpointFields(e), COLON, sep);
  }

  lemma {:induction false} EachBack<T>(xs: seq<T>, text: T -> Bytes, parse: Bytes -> Option<T>)
    requires forall i :: 0 <= i < |xs| ==> parse(text(xs[i])) == Some(xs[i])
    ensures ParseEach(Texts(xs, text), parse) == Some(xs)
  {
    if |xs| == 0 {
    } else {
      EachBack(xs[1..], text, parse);
      assert Texts(xs, text)[1..] == Texts(xs[1..], text);
      assert xs == [xs[0]] + xs[1..];
    }
  }

  lemma PartsBack(hashes: seq<Bytes>)
    requires |hashes| > 0 && forall i :: 0 <= i < |hashes| ==> ValidHash(hashes[i])
    ensures ParseParts(Join(Texts(hashes, ToHex), COLON)) == Some(hashes)
  {
    var texts := Texts(hashes, ToHex);
    forall i | 0 <= i < |texts| ensures Whole(texts[i], COLON) {
      HexWhole(hashes[i], COLON);
    }
    SplitsBack(texts, COLON);
    forall i | 0 <= i < |hashes| ensures ParseHash(ToHex(hashes[i])) == Some(hashes[i]) {
      HashBack(hashes[i]);
    }
    EachBack(hashes, ToHex, ParseHash);
  }

  lemma SourcesBack(sources: seq<Endpoint>)
    requires forall i :: 0 <= i < |sources| ==> ValidEndpoint(sources[i])
    ensures ParseSources(Join(Texts(sources, EndpointText), COMMA)) == Some(sources)
  {
    var texts := Texts(sources, EndpointText);
    forall i | 0 <= i < |texts| ensures Whole(texts[i], COMMA) {
      EndpointTextWhole(sources[i], COMMA);
    }
    SplitsBack(texts, COMMA);
    forall i | 0 <= i < |sources| ensures ParseEndpoint(EndpointText(sources[i])) == Some(sources[i]) {
      EndpointBack(sources[i]);
    }
    EachBack(sources, EndpointText, ParseEndpoint);
  }

  lemma AichBack(hash: Bytes)
    requires |hash| == AICH_LENGTH
    ensures ParseAich(Base32.Encode(hash)) == Some(hash)
  {
    Base32.RoundTrip(hash);
  }

  /** A tag is found again, and no other. */
  lemma TagFound(tag: Bytes, rest: Bytes)
    requires tag == PARTS || tag == AICH || tag == SOURCES
    ensures var o := tag + rest;
            o != END && Tagged(o, tag) && o[|tag|..] == rest
            && (Tagged(o, PARTS) <==> tag == PARTS) && (Tagged(o, AICH) <==> tag == AICH)
  {
    var o := tag + rest;
    assert o[0] == tag[0];
    assert o[..|tag|] == tag;
    if Tagged(o, PARTS) {
      assert o[..|PARTS|][0] == PARTS[0];
    }
    if Tagged(o, AICH) {
      assert o[..|AICH|][0] == AICH[0];
    }
  }

  lemma PartsParsed(l: Link, r: Link)
    requires ValidLink(l) && l.pieceHashes != [] && r.pieceHashes == []
    ensures var o := PARTS + Join(Texts(l.pieceHashes, ToHex), COLON);
            o != END && ParseOption(r, o) == Some(r.(pieceHashes := l.pieceHashes))
  {
    PartsBack(l.pieceHashes);
    TagFound(PARTS, Join(Texts(l.pieceHashes, ToHex), COLON));
    assert [] + l.pieceHashes == l.pieceHashes;
  }

  lemma PartsOptionBack(l: Link, r: Link, rest: seq<Bytes>)
    requires ValidLink(l) && r.pieceHashes == []
    ensures ParseOptions(r, PartsOption(l) + rest) == ParseOptions(r.(pieceHashes := l.pieceHashes), rest)
  {
    if l.pieceHashes == [] {
      assert PartsOption(l) + rest == rest;
    } else {
      PartsParsed(l, r);
      OneOption(r, PARTS + Join(Texts(l.pieceHashes, ToHex), COLON), rest);
    }
  }

  lemma OneOption(l: Link, option: Bytes, rest: seq<Bytes>)
    requires option != END && ParseOption(l, option).Some?
    ensures ParseOptions(l, [option] + rest) == ParseOptions(ParseOption(l, option).value, rest)
  {
  }

  lemma AichOptionBack(l: Link, r: Link, rest: seq<Bytes>)
    requires ValidLink(l) && r.aichHash == []
    ensures ParseOptions(r, AichOption(l) + rest) == ParseOptions(r.(aichHash := l.aichHash), rest)
  {
    if l.aichHash == [] {
      assert AichOption(l) + rest == rest;
    } else {
      AichBack(l.aichHash);
      TagFound(AICH, Base32.Encode(l.aichHash));
      OneOption(r, AICH + Base32.Encode(l.aichHash), rest);
    }
  }

  lemma SourcesOptionBack(l: Link, r: Link, rest: seq<Bytes>)
    requires ValidLink(l) && r.sources == []
    ensures ParseOptions(r, SourcesOption(l) + rest) == ParseOptions(r.(sources := l.sources), rest)
  {
    if l.sources == [] {
      assert SourcesOption(l) + rest == rest;
    } else {
      var text := Join(Texts(l.sources, EndpointText), COMMA);
      SourcesBack(l.sources);
      TagFound(SOURCES, text);
      OneOption(r, SOURCES + text, rest);
      assert [] + l.sources == l.sources;
    }
  }

  /** A file link with its options still to come. */
  function Plain(l: Link): Link {
    Link(l.name, l.size, l.hash, [], [], [])
  }

  lemma OptionsBack(l: Link)
    requires ValidLink(l)
    ensures ParseOptions(Plain(l), Options(l)) == Some(l)
  {
    var r1 := Plain(l).(pieceHashes := l.pieceHashes);
    var r2 := r1.(aichHash := l.aichHash);
    PartsOptionBack(l, Plain(l), AichOption(l) + (SourcesOption(l) + [END]));
    AichOptionBack(l, r1, SourcesOption(l) + [END]);
    SourcesOptionBack(l, r2, [END]);
  }

  lemma SanitizedName(name: Bytes)
    requires SLASH !in name && BACKSLASH !in name
    ensures Sanitize(name) == name
  {
  }

  lemma FileOf(fields: seq<Bytes>, name: Bytes, size: nat, hash: Bytes)
    requires |fields| >= 6 && fields[0] == SCHEME && fields[1] == FILE && name != []
    requires Sanitize(PercentDecode(fields[2])) == name && ParseSize(fields[3]) == Some(size)
    requires ParseHash(fields[4]) == Some(hash)
    ensures ParseFile(fields) == ParseOptions(Link(name, size, hash, [], [], []), fields[5..])
  {
  }

  lemma FieldsOfLink(l: Link)
    ensures var fs := LinkFields(l);
            && |fs| >= 6 && fs[0] == SCHEME && fs[1] == FILE && fs[2] == PercentEncode(l.name)
            && fs[3] == ToDecimal(l.size) && fs[4] == ToHex(l.hash) && fs[5..] == Options(l)
  {
  }

  lemma FileBack(l: Link)
    requires ValidLink(l)
    ensures ParseFile(LinkFields(l)) == Some(l)
  {
    PercentRoundTrip(l.name);
    SanitizedName(l.name);
    DecimalRoundTrip(l.size);
    HashBack(l.hash);
    FieldsOfLink(l);
    FileOf(LinkFields(l), l.name, l.size, l.hash);
    OptionsBack(l);
  }

  // ---------------------------------------------------------------------------
  // Splitting a printed link
  // ---------------------------------------------------------------------------

  ghost predicate AllWhole(fields: seq<Bytes>) {
    forall i :: 0 <= i < |fields| ==> Whole(fields[i], BAR)
  }

  lemma TagWhole(tag: Bytes, rest: Bytes)
    requires (tag == PARTS || tag == AICH || tag == SOURCES) && Avoids(rest, BAR)
    ensures Whole(tag + rest, BAR)
  {
  }

  lemma PartsWhole(l: Link)
    ensures AllWhole(PartsOption(l))
  {
    var texts := Texts(l.pieceHashes, ToHex);
    forall i | 0 <= i < |texts| ensures Avoids(texts[i], BAR) {
      HexWhole(l.pieceHashes[i], BAR);
    }
    JoinAvoids(texts, COLON, BAR);
    TagWhole(PARTS, Join(texts, COLON));
  }

  lemma AichWhole(l: Link)
    ensures AllWhole(AichOption(l))
  {
  }

  lemma SourcesWhole(l: Link)
    requires ValidLink(l)
    ensures AllWhole(SourcesOption(l))
  {
    var texts := Texts(l.sources, EndpointText);
    forall i | 0 <= i < |texts| ensures Avoids(texts[i], BAR) {
      EndpointTextWhole(l.sources[i], BAR);
    }
    JoinAvoids(texts, COMMA, BAR);
    TagWhole(SOURCES, Join(texts, COMMA));
  }

  lemma HeadingWhole(l: Link)
    requires ValidLink(l)
    ensures AllWhole(Heading(l))
  {
    PercentWhole(l.name, BAR);
    DecimalWhole(l.size, BAR);
    HexWhole(l.hash, BAR);
    assert Whole(SCHEME, BAR) && Whole(FILE, BAR);
  }

  lemma BothWhole(a: seq<Bytes>, b: seq<Bytes>)
    requires AllWhole(a) && AllWhole(b)
    ensures AllWhole(a + b)
  {
  }

  lemma LinkWhole(l: Link)
    requires ValidLink(l)
    ensures AllWhole(LinkFields(l))
  {
    HeadingWhole(l);
    OptionsWhole(l);
    BothWhole(Heading(l), Options(l));
  }

  lemma OptionsWhole(l: Link)
    requires ValidLink(l)
    ensures AllWhole(Options(l))
  {
    PartsWhole(l);
    AichWhole(l);
    SourcesWhole(l);
    assert Whole(END, BAR);
  }

  lemma JoinStarts(fields: seq<Bytes>)
    requires |fields| > 1
    ensures var v := Join(fields, BAR); |v| > |fields[0]| && v[..|fields[0]|] == fields[0] && v[|fields[0]|] == BAR
  {
  }

  /** A printed link has a bar behind its scheme, not an escaped one. */
  lemma PrintedIsNormal(l: Link)
    ensures Normalize(Print(l)) == Print(l)
  {
    var uri, prefix := Print(l), SCHEME + ESCAPED_BAR;
    JoinStarts(LinkFields(l));
    if |uri| >= |prefix| {
      assert Lower(uri[..|prefix|])[|SCHEME|] == BAR;
      assert prefix[|SCHEME|] != BAR;
    }
  }

  /** Parsing a printed link gives the link back. */
  lemma RoundTrip(l: Link)
    requires ValidLink(l)
    ensures Parse(Print(l)) == Some(l)
  {
    PrintedIsNormal(l);
    LinkWhole(l);
    SplitsBack(LinkFields(l), BAR);
    FileBack(l);
  }

  // ---------------------------------------------------------------------------
  // Every accepted link is valid
  // ---------------------------------------------------------------------------

  lemma HashValid(v: Bytes)
    ensures ParseHash(v).Some? ==> ValidHash(ParseHash(v).value)
  {
    FromHexLength(v);
  }

  lemma EndpointValid(v: Bytes)
    ensures ParseEndpoint(v).Some? ==> ValidEndpoint(ParseEndpoint(v).value)
  {
    var fields := Fields(v, COLON);
    FieldsNonEmpty([], v, COLON);
    if |fields| == 4 {
      HashValid(fields[3]);
    }
  }

  lemma {:induction false} EachValid<T(!new)>(fields: seq<Bytes>, parse: Bytes -> Option<T>, valid: T -> bool)
    requires forall v :: parse(v).Some? ==> valid(parse(v).value)
    ensures var r := ParseEach(fields, parse); r.Some? ==> forall i :: 0 <= i < |r.value| ==> valid(r.value[i])
  {
    if |fields| == 0 {
    } else {
      EachValid(fields[1..], parse, valid);
    }
  }

  lemma PartsValid(v: Bytes)
    ensures var r := ParseParts(v); r.Some? ==> forall i :: 0 <= i < |r.value| ==> ValidHash(r.value[i])
  {
    forall v ensures ParseHash(v).Some? ==> ValidHash(ParseHash(v).value) {
      HashValid(v);
    }
    EachValid(Fields(v, COLON), ParseHash, ValidHash);
  }

  lemma SourcesValid(v: Bytes)
    ensures var r := ParseSources(v); r.Some? ==> forall i :: 0 <= i < |r.value| ==> ValidEndpoint(r.value[i])
  {
    forall v ensures ParseEndpoint(v).Some? ==> ValidEndpoint(ParseEndpoint(v).value) {
      EndpointValid(v);
    }
    EachValid(Fields(v, COMMA), ParseEndpoint, ValidEndpoint);
  }

  lemma OptionValid(l: Link, option: Bytes)
    requires ValidLink(l)
    ensures ParseOption(l, option).Some? ==> ValidLink(ParseOption(l, option).value)
  {
    if Tagged(option, PARTS) {
      PartsValid(option[|PARTS|..]);
    } else if !Tagged(option, AICH) && Tagged(option, SOURCES) {
      SourcesValid(option[|SOURCES|..]);
    }
  }

  lemma {:induction false} OptionsValid(l: Link, fields: seq<Bytes>)
    requires ValidLink(l)
    ensures ParseOptions(l, fields).Some? ==> ValidLink(ParseOptions(l, fields).value)
    decreases |fields|
  {
    if |fields| == 0 {
    } else {
      if fields[0] == END {
        OptionsValid(l, fields[1..]);
      } else {
        OptionValid(l, fields[0]);
        if ParseOption(l, fields[0]).Some? {
          OptionsValid(ParseOption(l, fields[0]).value, fields[1..]);
        }
      }
    }
  }

  lemma ParsedIsValid(uri: Bytes)
    requires Parse(uri).Some?
    ensures ValidLink(Parse(uri).value)
  {
    var fields := Fields(Normalize(uri), BAR);
    var name, size, hash := Sanitize(PercentDecode(fields[2])), ParseSize(fields[3]), ParseHash(fields[4]);
    HashValid(fields[4]);
    OptionsValid(Link(name, size.value, hash.value, [], [], []), fields[5..]);
  }

  /** Whatever text a link was parsed from, printing and parsing it again changes nothing. */
  lemma PrintedIsStable(uri: Bytes)
    requires Parse(uri).Some?
    ensures Parse(Print(Parse(uri).value)) == Parse(uri)
  {
    ParsedIsValid(uri);
    RoundTrip(Parse(uri).value);
  }

  // ---------------------------------------------------------------------------
  // The loops
  // ---------------------------------------------------------------------------

  method JoinTexts<T>(xs: seq<T>, text: T -> Bytes, sep: byte) returns (r: Bytes)
    ensures r == Join(Texts(xs, text), sep)
  {
    r := [];
    for i := 0 to |xs|
      invariant r == Join(Texts(xs[..i], text), sep)
    {
      JoinAppend(Texts(xs[..i], text), text(xs[i]), sep);
      assert Texts(xs[..i + 1], text) == Texts(xs[..i], text) + [text(xs[i])];
      r := r + (if i > 0 then [sep] else []) + text(xs[i]);
    }
    assert xs[..|xs|] == xs;
  }

  lemma {:induction false} JoinAppend<T>(parts: seq<seq<T>>, part: seq<T>, sep: T)
    ensures Join(parts + [part], sep) == Join(parts, sep) + (if |parts| > 0 then [sep] else []) + part
    decreases |parts|
  {
    if |parts| == 0 {
    } else {
      assert (parts + [part])[1..] == parts[1..] + [part];
      if |parts| == 1 {
        assert parts[1..] + [part] == [part];
      } else {
        JoinAppend(parts[1..], part, sep);
      }
    }
  }

  /** What the source refuses to print: hashes of the wrong length. */
  predicate Printable(l: Link) {
    && (l.aichHash == [] || |l.aichHash| == AICH_LENGTH)
    && forall i :: 0 <= i < |l.sources| ==> l.sources[i].userHash == [] || |l.sources[i].userHash| == HASH_LENGTH
  }

  /** The text with one more field behind a bar. */
  lemma OneMore(fields: seq<Bytes>, field: Bytes)
    requires |fields| > 0
    ensures Join(fields, BAR) + [BAR] + field == Join(fields + [field], BAR)
  {
    JoinAppend(fields, field, BAR);
  }

  method AppendParts(uri: Bytes, l: Link, ghost fields: seq<Bytes>) returns (r: Bytes)
    requires |fields| > 0 && uri == Join(fields, BAR)
    ensures r == Join(fields + PartsOption(l), BAR)
  {
    if l.pieceHashes == [] {
      assert fields + [] == fields;
      return uri;
    }
    var text := JoinTexts(l.pieceHashes, ToHex, COLON);
    OneMore(fields, PARTS + text);
    r := uri + [BAR] + (PARTS + text);
  }

  method AppendAich(uri: Bytes, l: Link, ghost fields: seq<Bytes>) returns (r: Bytes)
    requires |fields| > 0 && uri == Join(fields, BAR)
    ensures r == Join(fields + AichOption(l), BAR)
  {
    if l.aichHash == [] {
      assert fields + [] == fields;
      return uri;
    }
    var text := Base32.EncodeBytes(l.aichHash);
    OneMore(fields, AICH + text);
    r := uri + [BAR] + (AICH + text);
  }

  method AppendSources(uri: Bytes, l: Link, ghost fields: seq<Bytes>) returns (r: Bytes)
    requires |fields| > 0 && uri == Join(fields, BAR)
    ensures r == Join(fields + SourcesOption(l), BAR)
  {
    if l.sources == [] {
      assert fields + [] == fields;
      return uri;
    }
    var text := JoinTexts(l.sources, EndpointText, COMMA);
    OneMore(fields, SOURCES + text);
    r := uri + [BAR] + (SOURCES + text);
  }

  lemma FieldsGrown(l: Link)
    ensures Heading(l) + PartsOption(l) + AichOption(l) + SourcesOption(l) + [END] == LinkFields(l)
  {
  }

  method ToFileLink(l: Link) returns (r: Option<Bytes>)
    ensures r == if Printable(l) then Some(Print(l)) else None
  {
    var hashes := SourcesPrintable(l.sources);
    if !hashes || (l.aichHash != [] && |l.aichHash| != AICH_LENGTH) {
      return None;
    }
    var uri := SCHEME + [BAR] + FILE + [BAR] + PercentEncode(l.name) + [BAR]
               + ToDecimal(l.size) + [BAR] + ToHex(l.hash);
    HeadingText(l);
    ghost var fields := Heading(l);
    uri := AppendParts(uri, l, fields);
    fields := fields + PartsOption(l);
    uri := AppendAich(uri, l, fields);
    fields := fields + AichOption(l);
    uri := AppendSources(uri, l, fields);
    fields := fields + SourcesOption(l);
    OneMore(fields, END);
    FieldsGrown(l);
    return Some(uri + [BAR] + END);
  }

  lemma HeadingText(l: Link)
    ensures SCHEME + [BAR] + FILE + [BAR] + PercentEncode(l.name) + [BAR] + ToDecimal(l.size) + [BAR] + ToHex(l.hash)
         == Join(Heading(l), BAR)
  {
    var a, b, c := PercentEncode(l.name), ToDecimal(l.size), ToHex(l.hash);
    OneMore([SCHEME], FILE);
    OneMore([SCHEME, FILE], a);
    OneMore([SCHEME, FILE, a], b);
    OneMore([SCHEME, FILE, a, b], c);
    assert [SCHEME] + [FILE] == [SCHEME, FILE];
    assert [SCHEME, FILE] + [a] == [SCHEME, FILE, a];
    assert [SCHEME, FILE, a] + [b] == [SCHEME, FILE, a, b];
    assert [SCHEME, FILE, a, b] + [c] == Heading(l);
  }

  method SourcesPrintable(sources: seq<Endpoint>) returns (ok: bool)
    ensures ok <==> forall i :: 0 <= i < |sources| ==> sources[i].userHash == [] || |sources[i].userHash| == HASH_LENGTH
  {
    for i := 0 to |sources|
      invariant forall k :: 0 <= k < i ==> sources[k].userHash == [] || |sources[k].userHash| == HASH_LENGTH
    {
      if sources[i].userHash != [] && |sources[i].userHash| != HASH_LENGTH {
        return false;
      }
    }
    return true;
  }

  method ParseLink(uri: Bytes) returns (r: Option<Link>)
    ensures r == Parse(uri)
  {
    var fields := FieldsOf(Normalize(uri), BAR);
    if |fields| < 6 || fields[0] != SCHEME || fields[1] != FILE {
      return None;
    }
    var name, size, hash := Sanitize(PercentDecode(fields[2])), ParseSize(fields[3]), ParseHash(fields[4]);
    if size == None || hash == None || name == [] {
      return None;
    }
    r := OptionsLoop(Link(name, size.value, hash.value, [], [], []), fields[5..]);
  }

  method OptionsLoop(l: Link, fields: seq<Bytes>) returns (r: Option<Link>)
    ensures r == ParseOptions(l, fields)
  {
    var link := l;
    for i := 0 to |fields|
      invariant ParseOptions(link, fields[i..]) == ParseOptions(l, fields)
    {
      assert fields[i..][1..] == fields[i + 1..];
      if fields[i] != END {
        var next := ParseOption(link, fields[i]);
        if next == None {
          return None;
        }
        link := next.value;
      }
    }
    return Some(link);
  }
}
