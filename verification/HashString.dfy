// Encoded hash strings (encoding.c, second section; argon2.c, `argon2_encodedlen`): printer, parser and length.
module HashString {
  import opened Argon2Instance
  import opened Base64
  import opened Base64Chars
  import opened Common
  import opened Decimal

  const DOLLAR: Text := [36]
  const VERSION_FIELD: Text := [36, 118, 61]   // $v=
  const MEMORY_FIELD: Text := [36, 109, 61]    // $m=
  const TIME_FIELD: Text := [44, 116, 61]      // ,t=
  const LANES_FIELD: Text := [44, 112, 61]     // ,p=

  /** `argon2_type2string` in lower case. */
  function TypeName(kind: ArgonType): (t: Text)
    ensures |t| == 7 || |t| == 8
  {
    match kind
    case ArgonD => [97, 114, 103, 111, 110, 50, 100]
    case ArgonI => [97, 114, 103, 111, 110, 50, 105]
    case ArgonId => [97, 114, 103, 111, 110, 50, 105, 100]
  }

  /** The fields a hash string carries. */
  datatype Fields = Fields(version: nat, mCost: nat, tCost: nat, lanes: nat, salt: seq<byte>, out: seq<byte>)

  // ----- the text, from the end to the front -----

  function PrintTail(f: Fields): Text {
    DOLLAR + (Encode(f.salt) + (DOLLAR + Encode(f.out)))
  }

  /** A tag, a number, and what follows. */
  function Labelled(tag: Text, n: nat, rest: Text): Text {
    tag + (Dec(n) + rest)
  }

  function PrintCosts(f: Fields): Text {
    Labelled(MEMORY_FIELD, f.mCost, Labelled(TIME_FIELD, f.tCost, Labelled(LANES_FIELD, f.lanes, PrintTail(f))))
  }

  /** What `encode_string` prints; the version field is always there. */
  function Print(f: Fields, kind: ArgonType): Text {
    DOLLAR + (TypeName(kind) + Labelled(VERSION_FIELD, f.version, PrintCosts(f)))
  }

  /** The characters of a string of the source. */
  function Ascii(s: string): (t: seq<int>)
    ensures |t| == |s|
  {
    seq(|s|, i requires 0 <= i < |s| => s[i] as int)
  }

  lemma TagsAre()
    ensures DOLLAR == Ascii("$") && VERSION_FIELD == Ascii("$v=") && MEMORY_FIELD == Ascii("$m=")
    ensures TIME_FIELD == Ascii(",t=") && LANES_FIELD == Ascii(",p=")
    ensures TypeName(ArgonD) == Ascii("argon2d") && TypeName(ArgonI) == Ascii("argon2i")
    ensures TypeName(ArgonId) == Ascii("argon2id")
  {
  }

  /** What is printed: the type, the version, the three costs under their own letters, the salt and the output. */
  lemma PrintedText(f: Fields, kind: ArgonType)
    ensures Print(f, kind)
            == Ascii("$") + (Ascii(match kind case ArgonD => "argon2d" case ArgonI => "argon2i" case _ => "argon2id")
               + (Ascii("$v=") + (Dec(f.version)
               + (Ascii("$m=") + (Dec(f.mCost) + (Ascii(",t=") + (Dec(f.tCost) + (Ascii(",p=") + (Dec(f.lanes)
               + (Ascii("$") + (Encode(f.salt) + (Ascii("$") + Encode(f.out)))))))))))))
  {
    hide Dec, Encode, Ascii, TypeName;
    TagsAre();
  }

  // ----- parsing -----

  /** `CC` */
  function Expect(s: Text, pos: nat, prefix: Text): (r: Option<nat>)
    ensures r.Some? ==> r.value == pos + |prefix| <= |s|
  {
    if pos + |prefix| <= |s| && s[pos..pos + |prefix|] == prefix then Some(pos + |prefix|) else None
  }

  /** `DECIMAL_U32` */
  function Number(s: Text, pos: nat): (r: Option<(nat, nat)>)
    requires pos <= |s|
    ensures r.Some? ==> pos <= r.value.1 <= |s| && r.value.0 <= UINT32_MAX
  {
    if ParseDec(s, pos, UINT32_MAX).Some? then DecOfParse(s, pos, UINT32_MAX); ParseDec(s, pos, UINT32_MAX) else None
  }

  /** `BIN` */
  function Binary(s: Text, pos: nat, capacity: nat): (r: Option<(seq<byte>, nat)>)
    requires pos <= |s|
    ensures r.Some? ==> pos <= r.value.1 <= |s|
  {
    Parse(s, pos, capacity)
  }

  /** A tag, then a number. */
  function Field(s: Text, pos: nat, tag: Text): (r: Option<(nat, nat)>)
    requires pos <= |s|
    ensures r.Some? ==> pos <= r.value.1 <= |s| && r.value.0 <= UINT32_MAX
  {
    var p :- Expect(s, pos, tag);
    Number(s, p)
  }

  /** The optional version: its value, whether it was there, and where the rest starts. */
  function VersionPart(s: Text, pos: nat): (r: Option<(nat, bool, nat)>)
    requires pos <= |s|
    ensures r.Some? ==> pos <= r.value.2 <= |s|
  {
    if Expect(s, pos, VERSION_FIELD).Some? then
      var v :- Field(s, pos, VERSION_FIELD);
      Some((v.0, true, v.1))
    else Some((VERSION_10, false, pos))
  }

  /** The three costs. */
  function CostsPart(s: Text, pos: nat): (r: Option<(nat, nat, nat, nat)>)
    requires pos <= |s|
    ensures r.Some? ==> pos <= r.value.3 <= |s|
  {
    var m :- Field(s, pos, MEMORY_FIELD);
    var t :- Field(s, m.1, TIME_FIELD);
    var l :- Field(s, t.1, LANES_FIELD);
    Some((m.0, t.0, l.0, l.1))
  }

  /** Salt and output. */
  function BinaryPart(s: Text, pos: nat, maxSalt: nat, maxOut: nat): (r: Option<(seq<byte>, seq<byte>, nat)>)
    requires pos <= |s|
    ensures r.Some? ==> pos <= r.value.2 <= |s|
  {
    var p1 :- Expect(s, pos, DOLLAR);
    var salt :- Binary(s, p1, maxSalt);
    var p2 :- Expect(s, salt.1, DOLLAR);
    var out :- Binary(s, p2, maxOut);
    Some((salt.0, out.0, out.1))
  }

  datatype Parsed = Parsed(fields: Fields, hasVersion: bool, end: nat)

  function ParseFields(s: Text, kind: ArgonType, maxSalt: nat, maxOut: nat): (r: Option<Parsed>)
    ensures r.Some? ==> r.value.end <= |s|
  {
    var p0 :- Expect(s, 0, DOLLAR);
    var p1 :- Expect(s, p0, TypeName(kind));
    var v :- VersionPart(s, p1);
    var c :- CostsPart(s, v.2);
    var b :- BinaryPart(s, c.3, maxSalt, maxOut);
    Some(Parsed(Fields(v.0, c.0, c.1, c.2, b.0, b.1), v.1, b.2))
  }

  // ----- stepping over printed parts -----

  lemma ExpectPrinted(s: Text, pos: nat, prefix: Text, rest: Text)
    requires pos <= |s| && s[pos..] == prefix + rest
    ensures Expect(s, pos, prefix) == Some(pos + |prefix|) && s[pos + |prefix|..] == rest
  {
    assert s[pos..pos + |prefix|] == s[pos..][..|prefix|];
    assert s[pos + |prefix|..] == s[pos..][|prefix|..];
  }

  lemma NumberPrinted(s: Text, pos: nat, n: nat, rest: Text)
    requires pos <= |s| && s[pos..] == Dec(n) + rest && n <= UINT32_MAX
    requires rest != [] ==> rest[0] < 48
    ensures Number(s, pos) == Some((n, pos + |Dec(n)|)) && s[pos + |Dec(n)|..] == rest
  {
    hide Encode, Dec;
    ParseOfDec(s, pos, n, rest, UINT32_MAX);
  }

  lemma FieldPrinted(s: Text, pos: nat, tag: Text, n: nat, rest: Text)
    requires pos <= |s| && s[pos..] == Labelled(tag, n, rest) && n <= UINT32_MAX
    requires rest != [] ==> rest[0] < 48
    ensures Field(s, pos, tag).Some? && Field(s, pos, tag).value.0 == n
    ensures s[Field(s, pos, tag).value.1..] == rest
    ensures Expect(s, pos, tag).Some?
  {
    hide Dec, Number, Expect, ParseDec;
    ExpectPrinted(s, pos, tag, Dec(n) + rest);
    NumberPrinted(s, pos + |tag|, n, rest);
  }

  lemma BinaryPrinted(s: Text, pos: nat, bytes: seq<byte>, rest: Text, capacity: nat)
    requires pos <= |s| && s[pos..] == Encode(bytes) + rest
    requires rest != [] ==> rest[0] == 36
    ensures Binary(s, pos, capacity) == if |bytes| <= capacity then Some((bytes, pos + |Encode(bytes)|)) else None
    ensures s[pos + |Encode(bytes)|..] == rest
  {
    hide Encode, Parse;
    assert s == s[..pos] + Encode(bytes) + rest;
    ParseOfEncode(s[..pos], bytes, rest, capacity);
    assert s[pos + |Encode(bytes)|..] == s[pos..][|Encode(bytes)|..];
  }

  predicate FieldsFit(f: Fields) {
    f.version <= UINT32_MAX && f.mCost <= UINT32_MAX && f.tCost <= UINT32_MAX && f.lanes <= UINT32_MAX
  }

  lemma TailPrinted(s: Text, pos: nat, f: Fields, maxSalt: nat, maxOut: nat)
    requires pos <= |s| && s[pos..] == PrintTail(f) && |f.salt| <= maxSalt && |f.out| <= maxOut
    ensures BinaryPart(s, pos, maxSalt, maxOut) == Some((f.salt, f.out, |s|))
  {
    hide Encode, Dec, Parse, ParseDec, Binary, Number, Expect, NoNegative;
    var r1 := DOLLAR + Encode(f.out);
    ExpectPrinted(s, pos, DOLLAR, Encode(f.salt) + r1);
    BinaryPrinted(s, pos + 1, f.salt, r1, maxSalt);
    var p := pos + 1 + |Encode(f.salt)|;
    ExpectPrinted(s, p, DOLLAR, Encode(f.out));
    assert s[p + 1..] == Encode(f.out) + [];
    BinaryPrinted(s, p + 1, f.out, [], maxOut);
  }

  lemma CostsPrinted(s: Text, pos: nat, f: Fields)
    requires pos <= |s| && s[pos..] == PrintCosts(f) && FieldsFit(f)
    ensures var r := CostsPart(s, pos);
            r.Some? && r.value.0 == f.mCost && r.value.1 == f.tCost && r.value.2 == f.lanes
            && s[r.value.3..] == PrintTail(f)
  {
    hide Encode, Dec, Parse, ParseDec, Field;
    var r2 := Labelled(LANES_FIELD, f.lanes, PrintTail(f));
    var r1 := Labelled(TIME_FIELD, f.tCost, r2);
    FieldPrinted(s, pos, MEMORY_FIELD, f.mCost, r1);
    var p := Field(s, pos, MEMORY_FIELD).value.1;
    FieldPrinted(s, p, TIME_FIELD, f.tCost, r2);
    FieldPrinted(s, Field(s, p, TIME_FIELD).value.1, LANES_FIELD, f.lanes, PrintTail(f));
  }

  /** Main result: a printed hash string parses back to the fields it was printed from, version included. */
  lemma ParseOfPrint(f: Fields, kind: ArgonType, maxSalt: nat, maxOut: nat)
    requires FieldsFit(f) && |f.salt| <= maxSalt && |f.out| <= maxOut
    ensures ParseFields(Print(f, kind), kind, maxSalt, maxOut) == Some(Parsed(f, true, |Print(f, kind)|))
  {
    hide Encode, Dec, Field, CostsPart, BinaryPart, Print;
    var s := Print(f, kind);
    var p, rest := 1 + |TypeName(kind)|, Labelled(VERSION_FIELD, f.version, PrintCosts(f));
    PrefixPrinted(f, kind);
    FieldPrinted(s, p, VERSION_FIELD, f.version, PrintCosts(f));
    var q := Field(s, p, VERSION_FIELD).value.1;
    CostsPrinted(s, q, f);
    TailPrinted(s, CostsPart(s, q).value.3, f, maxSalt, maxOut);
  }

  lemma PrefixPrinted(f: Fields, kind: ArgonType)
    ensures var s := Print(f, kind);
      && Expect(s, 0, DOLLAR) == Some(1)
      && Expect(s, 1, TypeName(kind)) == Some(1 + |TypeName(kind)|)
      && s[1 + |TypeName(kind)|..] == Labelled(VERSION_FIELD, f.version, PrintCosts(f))
  {
    hide Encode, Dec, Labelled, PrintCosts;
    var s, rest := Print(f, kind), Labelled(VERSION_FIELD, f.version, PrintCosts(f));
    assert s[0..] == s;
    ExpectPrinted(s, 0, DOLLAR, TypeName(kind) + rest);
    ExpectPrinted(s, 1, TypeName(kind), rest);
  }

  // ----- the other direction: what an accepted text looks like -----

  lemma ExpectShape(s: Text, pos: nat, prefix: Text)
    requires pos <= |s| && Expect(s, pos, prefix).Some?
    ensures s[pos..] == prefix + s[pos + |prefix|..]
  {
  }

  lemma NumberShape(s: Text, pos: nat)
    requires pos <= |s| && Number(s, pos).Some?
    ensures s[pos..] == Dec(Number(s, pos).value.0) + s[Number(s, pos).value.1..]
  {
    DecOfParse(s, pos, UINT32_MAX);
  }

  lemma FieldShape(s: Text, pos: nat, tag: Text)
    requires pos <= |s| && Field(s, pos, tag).Some?
    ensures s[pos..] == Labelled(tag, Field(s, pos, tag).value.0, s[Field(s, pos, tag).value.1..])
  {
    hide Dec, Number, Expect, ParseDec;
    ExpectShape(s, pos, tag);
    NumberShape(s, pos + |tag|);
  }

  lemma BinaryShape(s: Text, pos: nat, capacity: nat)
    requires pos <= |s| && Binary(s, pos, capacity).Some? && NoNegative(s)
    ensures s[pos..] == Encode(Binary(s, pos, capacity).value.0) + s[Binary(s, pos, capacity).value.1..]
  {
    hide Encode, Dec;
    var (bytes, end) := Binary(s, pos, capacity).value;
    EncodeOfParse(s, pos, capacity, bytes, end);
    assert s[pos..] == s[pos..end] + s[end..];
  }

  lemma TailShape(s: Text, pos: nat, maxSalt: nat, maxOut: nat, f: Fields)
    requires pos <= |s| && NoNegative(s)
    requires BinaryPart(s, pos, maxSalt, maxOut) == Some((f.salt, f.out, |s|))
    ensures s[pos..] == PrintTail(f)
  {
    hide Encode, Dec, Parse, ParseDec, Binary, Number, Expect, NoNegative;
    ExpectShape(s, pos, DOLLAR);
    BinaryShape(s, pos + 1, maxSalt);
    var p := Binary(s, pos + 1, maxSalt).value.1;
    ExpectShape(s, p, DOLLAR);
    BinaryShape(s, p + 1, maxOut);
    assert s[|s|..] == [];
    assert Encode(f.out) + [] == Encode(f.out);
  }

  lemma CostsShape(s: Text, pos: nat, f: Fields)
    requires pos <= |s| && CostsPart(s, pos).Some?
    requires CostsPart(s, pos).value == (f.mCost, f.tCost, f.lanes, CostsPart(s, pos).value.3)
    requires s[CostsPart(s, pos).value.3..] == PrintTail(f)
    ensures s[pos..] == PrintCosts(f)
  {
    hide Encode, Dec, Parse, ParseDec, Field, PrintTail;
    FieldShape(s, pos, MEMORY_FIELD);
    var p := Field(s, pos, MEMORY_FIELD).value.1;
    FieldShape(s, p, TIME_FIELD);
    FieldShape(s, Field(s, p, TIME_FIELD).value.1, LANES_FIELD);
  }

  lemma PrintedChars(f: Fields, kind: ArgonType)
    ensures NoNegative(Print(f, kind))
  {
    assert NoNegative(Encode(f.salt)) && NoNegative(Encode(f.out));
    assert NoNegative(PrintTail(f));
    assert NoNegative(PrintCosts(f));
  }

  /** Main result: a text that is accepted to its end is what `encode_string` prints for its fields exactly when it has
      a version field and no negative `char`. Texts of version 1.0 have no version field, and print with one. */
  lemma PrintOfParse(s: Text, kind: ArgonType, maxSalt: nat, maxOut: nat, r: Parsed)
    requires ParseFields(s, kind, maxSalt, maxOut) == Some(r) && r.end == |s|
    ensures Print(r.fields, kind) == s <==> r.hasVersion && NoNegative(s)
  {
    hide Encode, Dec, Field, CostsPart, BinaryPart, PrintCosts, Print;
    if Print(r.fields, kind) == s {
      PrintedChars(r.fields, kind);
      PrefixPrinted(r.fields, kind);
      ExpectPrinted(s, 1 + |TypeName(kind)|, VERSION_FIELD, Dec(r.fields.version) + PrintCosts(r.fields));
    }
    if r.hasVersion && NoNegative(s) {
      ShapeOfParse(s, kind, maxSalt, maxOut, r);
    }
  }

  lemma ShapeOfParse(s: Text, kind: ArgonType, maxSalt: nat, maxOut: nat, r: Parsed)
    requires ParseFields(s, kind, maxSalt, maxOut) == Some(r) && r.end == |s| && r.hasVersion && NoNegative(s)
    ensures Print(r.fields, kind) == s
  {
    hide Encode, Dec, Field, CostsPart, BinaryPart, Labelled, PrintCosts, Expect;
    var f, p := r.fields, 1 + |TypeName(kind)|;
    var q := VersionPart(s, p).value.2;
    assert s[q..] == PrintCosts(f) by {
      TailShape(s, CostsPart(s, q).value.3, maxSalt, maxOut, f);
      CostsShape(s, q, f);
    }
    assert s[p..] == Labelled(VERSION_FIELD, f.version, PrintCosts(f)) by { FieldShape(s, p, VERSION_FIELD); }
    assert s[1..] == TypeName(kind) + s[p..] by { ExpectShape(s, 1, TypeName(kind)); }
    assert s == DOLLAR + s[1..] by { ExpectShape(s, 0, DOLLAR); assert s[0..] == s; }
  }

  // ----- `decode_string` -----

  /** The context after a successful parse: lengths and buffers set, the rest reset to defaults. */
  function Filled(c: Context, f: Fields): Context {
    c.(version := f.version, mCost := f.mCost, tCost := f.tCost, lanes := f.lanes, threads := f.lanes,
       salt := Data(f.salt), saltlen := |f.salt|, out := Data(f.out), outlen := |f.out|,
       secret := Null, secretlen := 0, ad := Null, adlen := 0, hasAllocate := false, hasFree := false)
  }

  // Fields are written as they are read, so a text that is not accepted leaves a context behind that it has changed.

  function AfterCosts(c: Context, s: Text, pos: nat): Context
    requires pos <= |s|
  {
    match Field(s, pos, MEMORY_FIELD)
    case None => c
    case Some(m) =>
      match Field(s, m.1, TIME_FIELD)
      case None => c.(mCost := m.0)
      case Some(t) =>
        match Field(s, t.1, LANES_FIELD)
        case None => c.(mCost := m.0, tCost := t.0)
        case Some(l) => c.(mCost := m.0, tCost := t.0, lanes := l.0, threads := l.0)
  }

  function AfterBinaries(c: Context, s: Text, pos: nat, maxSalt: nat, maxOut: nat): Context
    requires pos <= |s|
  {
    match Expect(s, pos, DOLLAR)
    case None => c
    case Some(p1) =>
      match Binary(s, p1, maxSalt)
      case None => c
      case Some(salt) =>
        var c' := c.(salt := Data(salt.0), saltlen := |salt.0|);
        match Expect(s, salt.1, DOLLAR)
        case None => c'
        case Some(p2) =>
          match Binary(s, p2, maxOut)
          case None => c'
          case Some(out) => c'.(out := Data(out.0), outlen := |out.0|)
  }

  /** The context when reading ends, at the end of the text or before. */
  function Scanned(c: Context, s: Text, kind: ArgonType): Context {
    match Expect(s, 0, DOLLAR)
    case None => c
    case Some(p0) =>
      match Expect(s, p0, TypeName(kind))
      case None => c
      case Some(p1) =>
        match VersionPart(s, p1)
        case None => c.(version := VERSION_10)
        case Some(v) =>
          var c' := AfterCosts(c.(version := v.0), s, v.2);
          match CostsPart(s, v.2)
          case None => c'
          case Some(costs) => AfterBinaries(c', s, costs.3, c.saltlen, c.outlen)
  }

  /** Status and context. Validation comes before the test for trailing characters. */
  function Decoded(c: Context, s: Text, kind: ArgonType): (Status, Context) {
    match ParseFields(s, kind, c.saltlen, c.outlen)
    case None => (DecodingFail, Scanned(c, s, kind))
    case Some(r) =>
      var c' := Filled(c, r.fields);
      var status := ValidateInputs(c');
      (if status != OK then status else if r.end == |s| then OK else DecodingFail, c')
  }

  /** Where reading succeeds, the context it leaves and the defaults make the filled one. */
  lemma ScannedIsFilled(c: Context, s: Text, kind: ArgonType)
    requires ParseFields(s, kind, c.saltlen, c.outlen).Some?
    ensures Filled(c, ParseFields(s, kind, c.saltlen, c.outlen).value.fields) == WithDefaults(Scanned(c, s, kind))
  {
    hide Expect, Field, Binary, VersionPart;
  }

  function WithDefaults(c: Context): Context {
    c.(secret := Null, secretlen := 0, ad := Null, adlen := 0, hasAllocate := false, hasFree := false)
  }

  /** `DECIMAL_U32` on a host whose `unsigned long` goes up to `ulongMax`. */
  method ReadNumber(s: Text, pos: nat, ulongMax: nat) returns (r: Option<(nat, nat)>)
    requires pos <= |s| && ulongMax >= UINT32_MAX
    ensures r == Number(s, pos)
  {
    r := DecodeDecimal(s, pos, ulongMax);
    if r.Some? && r.value.0 > UINT32_MAX {
      r := None;
    }
  }

  method ReadField(s: Text, pos: nat, tag: Text, ulongMax: nat) returns (r: Option<(nat, nat)>)
    requires pos <= |s| && ulongMax >= UINT32_MAX
    ensures r == Field(s, pos, tag)
  {
    var p := Expect(s, pos, tag);
    if p.None? { return None; }
    r := ReadNumber(s, p.value, ulongMax);
  }

  /** `BIN`: decode into a buffer of `capacity` bytes and keep what was decoded. */
  method ReadBinary(buf: array<byte>, capacity: nat, s: Text, pos: nat) returns (r: Option<(seq<byte>, nat)>)
    requires pos <= |s| && capacity <= buf.Length
    modifies buf
    ensures r == Binary(s, pos, capacity)
  {
    var len := FromBase64(buf, capacity, s, pos);
    if len.None? { return None; }
    r := Some((buf[..len.value.0], len.value.1));
  }

  method ReadCosts(c: Context, s: Text, pos: nat, ulongMax: nat)
    returns (r: Option<(nat, nat, nat, nat)>, c': Context)
    requires pos <= |s| && ulongMax >= UINT32_MAX
    ensures r == CostsPart(s, pos) && c' == AfterCosts(c, s, pos)
  {
    hide Field;
    r, c' := None, c;
    var m := ReadField(s, pos, MEMORY_FIELD, ulongMax);
    if m.None? { return; }
    c' := c'.(mCost := m.value.0);
    var t := ReadField(s, m.value.1, TIME_FIELD, ulongMax);
    if t.None? { return; }
    c' := c'.(tCost := t.value.0);
    var l := ReadField(s, t.value.1, LANES_FIELD, ulongMax);
    if l.None? { return; }
    c' := c'.(lanes := l.value.0, threads := l.value.0);
    r := Some((m.value.0, t.value.0, l.value.0, l.value.1));
  }

  method ReadBinaries(c: Context, saltBuf: array<byte>, outBuf: array<byte>, s: Text, pos: nat,
                      maxSalt: nat, maxOut: nat)
    returns (r: Option<(seq<byte>, seq<byte>, nat)>, c': Context)
    requires pos <= |s| && maxSalt <= saltBuf.Length && maxOut <= outBuf.Length && saltBuf != outBuf
    modifies saltBuf, outBuf
    ensures r == BinaryPart(s, pos, maxSalt, maxOut) && c' == AfterBinaries(c, s, pos, maxSalt, maxOut)
  {
    hide Expect, Binary;
    r, c' := None, c;
    var p1 := Expect(s, pos, DOLLAR);
    if p1.None? { return; }
    var salt := ReadBinary(saltBuf, maxSalt, s, p1.value);
    if salt.None? { return; }
    c' := c'.(salt := Data(salt.value.0), saltlen := |salt.value.0|);
    var p2 := Expect(s, salt.value.1, DOLLAR);
    if p2.None? { return; }
    var out := ReadBinary(outBuf, maxOut, s, p2.value);
    if out.None? { return; }
    c' := c'.(out := Data(out.value.0), outlen := |out.value.0|);
    r := Some((salt.value.0, out.value.0, out.value.1));
  }

  /** `decode_string`. The context brings buffers for salt and output and, in the length fields, their sizes. */
  method DecodeString(c: Context, saltBuf: array<byte>, outBuf: array<byte>, s: Text, kind: ArgonType, ulongMax: nat)
    returns (status: Status, c': Context)
    requires 0 !in s && ulongMax >= UINT32_MAX && saltBuf != outBuf
    requires c.saltlen <= saltBuf.Length && c.outlen <= outBuf.Length
    modifies saltBuf, outBuf
    ensures (status, c') == Decoded(c, s, kind)
  {
    hide Field, ValidateInputs, Filled, Expect, CostsPart, BinaryPart, AfterCosts, AfterBinaries;
    status, c' := DecodingFail, c;
    var p0 := Expect(s, 0, DOLLAR);
    if p0.None? { return; }
    var p1 := Expect(s, p0.value, TypeName(kind));
    if p1.None? { return; }
    c' := c'.(version := VERSION_10);
    var pos := p1.value;
    if Expect(s, pos, VERSION_FIELD).Some? {
      var v := ReadField(s, pos, VERSION_FIELD, ulongMax);
      if v.None? { return; }
      c', pos := c'.(version := v.value.0), v.value.1;
    }
    var costs, binaries;
    costs, c' := ReadCosts(c', s, pos, ulongMax);
    if costs.None? { return; }
    binaries, c' := ReadBinaries(c', saltBuf, outBuf, s, costs.value.3, c.saltlen, c.outlen);
    if binaries.None? { return; }
    ScannedIsFilled(c, s, kind);
    c' := WithDefaults(c');
    var validation := ValidateInputs(c');
    if validation != OK { return validation, c'; }
    if CharAt(s, binaries.value.2) == 0 { return OK, c'; }
  }

  // ----- how long a printed text is -----

  function EncodedLength(tCost: nat, mCost: nat, lanes: nat, saltlen: nat, hashlen: nat, kind: ArgonType): nat {
    15 + |TypeName(kind)| + |Dec(tCost)| + |Dec(mCost)| + |Dec(lanes)| + B64Len(saltlen) + B64Len(hashlen)
    + |Dec(VERSION_NUMBER)| + 1
  }

  lemma TwoDigits(n: nat)
    ensures |Dec(n)| == 2 <==> 10 <= n < 100
  {
    if n >= 100 { assert |Dec(n / 10)| >= 2; }
  }

  /** Main result: the length function is exact for the versions it assumes, those of two digits, and off by the number
      of missing or extra digits for every other. */
  lemma EncodedLengthIsExact(f: Fields, kind: ArgonType)
    ensures EncodedLength(f.tCost, f.mCost, f.lanes, |f.salt|, |f.out|, kind) - (|Print(f, kind)| + 1)
            == 2 - |Dec(f.version)|
    ensures EncodedLength(f.tCost, f.mCost, f.lanes, |f.salt|, |f.out|, kind) == |Print(f, kind)| + 1
            <==> 10 <= f.version < 100
  {
    PrintParts(f, kind);
    TwoDigits(VERSION_NUMBER);
    TwoDigits(f.version);
  }

  // ----- `encode_string` -----

  /** What C asks of a caller: a buffer that is there holds as many bytes as its length field says. */
  predicate BuffersHold(c: Context) {
    && (c.salt.Data? ==> c.saltlen <= |c.salt.bytes|)
    && (c.out.Data? ==> c.outlen <= |c.out.bytes|)
  }

  /** The fields a context prints. */
  function FieldsOf(c: Context): Fields
    requires BuffersHold(c) && ValidateInputs(c) == OK
  {
    Fields(c.version, c.mCost, c.tCost, c.lanes, c.salt.bytes[..c.saltlen], c.out.bytes[..c.outlen])
  }

  /** `SS`: append a string and its terminating zero, if there is room. */
  method Append(dst: array<Char>, pos: nat, room: nat, text: Text) returns (ok: bool)
    requires pos + room <= dst.Length
    modifies dst
    ensures ok <==> |text| < room
    ensures ok ==> dst[..pos + |text|] == old(dst[..pos]) + text && dst[pos + |text|] == 0
    ensures dst[pos + room..] == old(dst[pos + room..])
    ensures !ok ==> dst[..] == old(dst[..])
  {
    if |text| >= room { return false; }
    forall k | 0 <= k <= |text| {
      dst[pos + k] := if k < |text| then text[k] else 0;
    }
    return true;
  }

  /** `SB` */
  method AppendBinary(dst: array<Char>, pos: nat, room: nat, bytes: seq<byte>) returns (ok: bool)
    requires pos + room <= dst.Length
    modifies dst
    ensures ok <==> |Encode(bytes)| < room
    ensures ok ==> dst[..pos + |Encode(bytes)|] == old(dst[..pos]) + Encode(bytes) && dst[pos + |Encode(bytes)|] == 0
    ensures dst[pos + room..] == old(dst[pos + room..])
    ensures !ok ==> dst[..] == old(dst[..])
  {
    hide Encode, Dec;
    var r := ToBase64(dst, pos, room, bytes);
    ok := r.Some?;
    if ok {
      assert dst[pos + |Encode(bytes)|] == (Encode(bytes) + [0])[|Encode(bytes)|];
      assert dst[..pos + |Encode(bytes)|] == old(dst[..pos]) + Encode(bytes);
    }
  }

  /** `SS(tag); SX(n)` */
  method AppendNumber(dst: array<Char>, pos: nat, room: nat, tag: Text, n: nat) returns (ok: bool, len: nat)
    requires pos + room <= dst.Length
    modifies dst
    ensures len == |tag + Dec(n)| && (ok <==> len < room)
    ensures ok ==> dst[..pos + len] == old(dst[..pos]) + (tag + Dec(n)) && dst[pos + len] == 0
    ensures dst[pos + room..] == old(dst[pos + room..])
  {
    hide Encode, Dec;
    var text := Dec(n);
    len := |tag| + |text|;
    ok := Append(dst, pos, room, tag);
    if ok {
      ok := Append(dst, pos + |tag|, room - |tag|, text);
    }
  }

  /** The part up to the costs. */
  method AppendHead(dst: array<Char>, room: nat, kind: ArgonType, version: nat) returns (ok: bool, len: nat)
    requires room <= dst.Length
    modifies dst
    ensures len == |Head(kind, version)| && (ok <==> len < room)
    ensures ok ==> dst[..len] == Head(kind, version) && dst[len] == 0
    ensures dst[room..] == old(dst[room..])
  {
    hide Encode, Dec, TypeName;
    len := |Head(kind, version)|;
    ok := Append(dst, 0, room, DOLLAR);
    if !ok { return; }
    ok := Append(dst, 1, room - 1, TypeName(kind));
    if !ok { return; }
    var p := 1 + |TypeName(kind)|;
    var n;
    ok, n := AppendNumber(dst, p, room - p, VERSION_FIELD, version);
  }

  function Head(kind: ArgonType, version: nat): Text {
    DOLLAR + TypeName(kind) + (VERSION_FIELD + Dec(version))
  }

  method AppendMemoryAndTime(dst: array<Char>, pos: nat, room: nat, f: Fields) returns (ok: bool, len: nat)
    requires pos + room <= dst.Length
    modifies dst
    ensures len == |MemoryAndTime(f)| && (ok <==> len < room)
    ensures ok ==> dst[..pos + len] == old(dst[..pos]) + MemoryAndTime(f) && dst[pos + len] == 0
    ensures dst[pos + room..] == old(dst[pos + room..])
  {
    hide Encode, Dec, TypeName;
    len := |MemoryAndTime(f)|;
    var n;
    ghost var before := dst[..pos];
    ok, n := AppendNumber(dst, pos, room, MEMORY_FIELD, f.mCost);
    if !ok { return; }
    var p := n;
    ok, n := AppendNumber(dst, pos + p, room - p, TIME_FIELD, f.tCost);
    Regroup(before, MEMORY_FIELD + Dec(f.mCost), TIME_FIELD + Dec(f.tCost));
  }

  function MemoryAndTime(f: Fields): Text {
    (MEMORY_FIELD + Dec(f.mCost)) + (TIME_FIELD + Dec(f.tCost))
  }

  /** The three costs. */
  method AppendCosts(dst: array<Char>, pos: nat, room: nat, f: Fields) returns (ok: bool, len: nat)
    requires pos + room <= dst.Length
    modifies dst
    ensures len == |Costs(f)| && (ok <==> len < room)
    ensures ok ==> dst[..pos + len] == old(dst[..pos]) + Costs(f) && dst[pos + len] == 0
    ensures dst[pos + room..] == old(dst[pos + room..])
  {
    hide Encode, Dec, TypeName, MemoryAndTime;
    len := |Costs(f)|;
    var n;
    ghost var before := dst[..pos];
    ok, n := AppendMemoryAndTime(dst, pos, room, f);
    if !ok { return; }
    var p := n;
    ok, n := AppendNumber(dst, pos + p, room - p, LANES_FIELD, f.lanes);
    Regroup(before, MemoryAndTime(f), LANES_FIELD + Dec(f.lanes));
  }

  lemma Regroup(a: Text, b: Text, c: Text)
    ensures (a + b) + c == a + (b + c)
  {
  }

  function Costs(f: Fields): Text {
    MemoryAndTime(f) + (LANES_FIELD + Dec(f.lanes))
  }

  /** A dollar sign and bytes. */
  method AppendPart(dst: array<Char>, pos: nat, room: nat, bytes: seq<byte>) returns (ok: bool, len: nat)
    requires pos + room <= dst.Length
    modifies dst
    ensures len == |DOLLAR + Encode(bytes)| && (ok <==> len < room)
    ensures ok ==> dst[..pos + len] == old(dst[..pos]) + (DOLLAR + Encode(bytes)) && dst[pos + len] == 0
    ensures dst[pos + room..] == old(dst[pos + room..])
  {
    hide Encode;
    len := |DOLLAR + Encode(bytes)|;
    ok := Append(dst, pos, room, DOLLAR);
    if ok {
      ok := AppendBinary(dst, pos + 1, room - 1, bytes);
    }
  }

  /** Salt and output. */
  method AppendTail(dst: array<Char>, pos: nat, room: nat, salt: seq<byte>, out: seq<byte>) returns (ok: bool, len: nat)
    requires pos + room <= dst.Length
    modifies dst
    ensures len == |Tail(salt, out)| && (ok <==> len < room)
    ensures ok ==> dst[..pos + len] == old(dst[..pos]) + Tail(salt, out) && dst[pos + len] == 0
    ensures dst[pos + room..] == old(dst[pos + room..])
  {
    hide Encode;
    len := |Tail(salt, out)|;
    var n;
    ghost var before := dst[..pos];
    ok, n := AppendPart(dst, pos, room, salt);
    if !ok { return; }
    var p := n;
    ok, n := AppendPart(dst, pos + p, room - p, out);
    Regroup(before, DOLLAR + Encode(salt), DOLLAR + Encode(out));
  }

  function Tail(salt: seq<byte>, out: seq<byte>): Text {
    (DOLLAR + Encode(salt)) + (DOLLAR + Encode(out))
  }

  lemma PrintParts(f: Fields, kind: ArgonType)
    ensures Print(f, kind) == Head(kind, f.version) + Costs(f) + Tail(f.salt, f.out)
  {
    hide Encode, Dec;
    assert PrintTail(f) == Tail(f.salt, f.out);
    assert PrintCosts(f) == Costs(f) + PrintTail(f);
  }

  lemma LengthsOf(c: Context)
    requires BuffersHold(c) && ValidateInputs(c) == OK
    ensures |FieldsOf(c).salt| == c.saltlen && |FieldsOf(c).out| == c.outlen
  {
  }

  /** `encode_string`. */
  method EncodeString(dst: array<Char>, dstLen: nat, c: Context, kind: ArgonType) returns (status: Status)
    requires dstLen <= dst.Length && BuffersHold(c)
    modifies dst
    ensures status == if ValidateInputs(c) != OK then ValidateInputs(c)
                      else if |Print(FieldsOf(c), kind)| < dstLen then OK else EncodingFail
    ensures status == OK ==> var text := Print(FieldsOf(c), kind); dst[..|text|] == text && dst[|text|] == 0
    ensures ValidateInputs(c) == OK && 10 <= c.version < 100 ==>
              (status == OK <==> EncodedLength(c.tCost, c.mCost, c.lanes, c.saltlen, c.outlen, kind) <= dstLen)
    ensures dst[dstLen..] == old(dst[dstLen..])
  {
    hide Encode, Dec, Print, Head, Costs, Tail, ValidateInputs, EncodedLength;
    status := ValidateInputs(c);
    if status != OK { return; }
    LengthsOf(c);
    EncodedLengthIsExact(FieldsOf(c), kind);
    status := EncodingFail;
    var ok, n := AppendHead(dst, dstLen, kind, c.version);
    if !ok { PrintParts(FieldsOf(c), kind); return; }
    ok := AppendRest(dst, n, dstLen - n, FieldsOf(c));
    PrintParts(FieldsOf(c), kind);
    if !ok { return; }
    status := OK;
  }

  method AppendRest(dst: array<Char>, pos: nat, room: nat, f: Fields) returns (ok: bool)
    requires pos + room <= dst.Length
    modifies dst
    ensures ok <==> |Costs(f)| + |Tail(f.salt, f.out)| < room
    ensures ok ==> var end := pos + |Costs(f)| + |Tail(f.salt, f.out)|;
                   dst[..end] == old(dst[..pos]) + Costs(f) + Tail(f.salt, f.out) && dst[end] == 0
    ensures dst[pos + room..] == old(dst[pos + room..])
  {
    hide Encode, Dec, Costs, Tail;
    var n;
    ok, n := AppendCosts(dst, pos, room, f);
    if !ok { return; }
    var p := pos + n;
    ok, n := AppendTail(dst, p, room - (p - pos), f.salt, f.out);
  }

  // ----- lengths -----

  /** `argon2_encodedlen`: the literal "$$v=$m=,t=,p=$$" has 15 characters; the last 1 is for the terminating zero. */
  method EncodedLen(tCost: nat, mCost: nat, lanes: nat, saltlen: nat, hashlen: nat, kind: ArgonType) returns (len: nat)
    ensures len == EncodedLength(tCost, mCost, lanes, saltlen, hashlen, kind)
  {
    var t := NumLen(tCost);
    var m := NumLen(mCost);
    var p := NumLen(lanes);
    var v := NumLen(VERSION_NUMBER);
    len := 15 + |TypeName(kind)| + t + m + p + B64Len(saltlen) + B64Len(hashlen) + v + 1;
  }

  /** Main result: what `encode_string` prints for a valid context, `decode_string` accepts, and gives back the same
      version, costs, lanes, salt and output. */
  lemma DecodeOfEncode(c: Context, c0: Context, kind: ArgonType)
    requires c.Fits() && BuffersHold(c) && ValidateInputs(c) == OK
    requires c.saltlen <= c0.saltlen && c.outlen <= c0.outlen
    requires c0.pwd == Null ==> c0.pwdlen == 0
    ensures var (status, c') := Decoded(c0, Print(FieldsOf(c), kind), kind);
            && status == OK && BuffersHold(c') && ValidateInputs(c') == OK && FieldsOf(c') == FieldsOf(c)
            && c'.version == c.version && c'.mCost == c.mCost && c'.tCost == c.tCost
            && c'.lanes == c.lanes && c'.threads == c.lanes && c'.saltlen == c.saltlen && c'.outlen == c.outlen
            && c'.salt == Data(c.salt.bytes[..c.saltlen]) && c'.out == Data(c.out.bytes[..c.outlen])
            && c'.secret == Null && c'.ad == Null && c'.pwd == c0.pwd
  {
    hide Encode, Dec, ParseFields, Print;
    var f := FieldsOf(c);
    ParseOfPrint(f, kind, c0.saltlen, c0.outlen);
    assert ValidateInputs(Filled(c0, f)) == OK;
  }

  /** Main result, the other way: an accepted text is what `encode_string` prints for the decoded context exactly when
      it has a version field and no negative `char`. */
  lemma EncodeOfDecode(s: Text, c0: Context, kind: ArgonType)
    requires Decoded(c0, s, kind).0 == OK
    ensures var c' := Decoded(c0, s, kind).1;
      && BuffersHold(c') && ValidateInputs(c') == OK
      && (Print(FieldsOf(c'), kind) == s <==>
            NoNegative(s) && Expect(s, 1 + |TypeName(kind)|, VERSION_FIELD).Some?)
  {
    hide Encode, Dec, ParseFields, Print, ValidateInputs, Filled, Expect;
    var r := ParseFields(s, kind, c0.saltlen, c0.outlen).value;
    PrintOfParse(s, kind, c0.saltlen, c0.outlen, r);
    VersionIsPresent(s, kind, c0.saltlen, c0.outlen);
    FilledFields(c0, r.fields);
  }

  lemma FilledFields(c: Context, f: Fields)
    ensures BuffersHold(Filled(c, f))
    ensures ValidateInputs(Filled(c, f)) == OK ==> FieldsOf(Filled(c, f)) == f
  {
    hide ValidateInputs;
  }

  lemma VersionIsPresent(s: Text, kind: ArgonType, maxSalt: nat, maxOut: nat)
    requires ParseFields(s, kind, maxSalt, maxOut).Some?
    ensures ParseFields(s, kind, maxSalt, maxOut).value.hasVersion
            <==> Expect(s, 1 + |TypeName(kind)|, VERSION_FIELD).Some?
  {
    hide Field, CostsPart, BinaryPart;
  }

  // ----- texts with a negative `char` -----

  predicate IsSlash(s: Text, i: nat) {
    i < |s| && s[i] == 47
  }

  lemma {:induction false} SameRun(s: Text, i: nat, x: Char, pos: nat)
    requires IsSlash(s, i) && x < 0
    ensures Run(s[i := x], pos) == Run(s, pos)
    decreases |s| - pos
  {
    if pos < |s| {
      SameRun(s, i, x, pos + 1);
    }
  }

  lemma {:induction false} SameDigitRun(s: Text, i: nat, x: Char, pos: nat)
    requires IsSlash(s, i) && x < 0
    ensures DigitRun(s[i := x], pos) == DigitRun(s, pos)
    decreases |s| - pos
  {
    if pos < |s| {
      SameDigitRun(s, i, x, pos + 1);
    }
  }

  lemma SameNumber(s: Text, i: nat, x: Char, pos: nat)
    requires IsSlash(s, i) && x < 0 && pos <= |s|
    ensures Number(s[i := x], pos) == Number(s, pos)
  {
    hide DecValue;
    SameDigitRun(s, i, x, pos);
    var n := DigitRun(s, pos);
    assert s[i := x][pos..pos + n] == s[pos..pos + n];
  }

  lemma SameExpect(s: Text, i: nat, x: Char, pos: nat, prefix: Text)
    requires IsSlash(s, i) && x < 0
    requires forall k | 0 <= k < |prefix| :: prefix[k] >= 0 && prefix[k] != 47
    ensures Expect(s[i := x], pos, prefix) == Expect(s, pos, prefix)
  {
    var n := |prefix|;
    if pos + n <= |s| {
      if pos <= i < pos + n {
        assert s[pos..pos + n][i - pos] == 47 && s[i := x][pos..pos + n][i - pos] == x;
      } else {
        assert s[i := x][pos..pos + n] == s[pos..pos + n];
      }
    }
  }

  lemma SameField(s: Text, i: nat, x: Char, pos: nat, tag: Text)
    requires IsSlash(s, i) && x < 0 && pos <= |s| && tag in {VERSION_FIELD, MEMORY_FIELD, TIME_FIELD, LANES_FIELD}
    ensures Expect(s[i := x], pos, tag) == Expect(s, pos, tag)
    ensures Field(s[i := x], pos, tag) == Field(s, pos, tag)
  {
    hide Number, Expect;
    SameExpect(s, i, x, pos, tag);
    if Expect(s, pos, tag).Some? {
      SameNumber(s, i, x, pos + |tag|);
    }
  }

  lemma SameCosts(s: Text, i: nat, x: Char, pos: nat)
    requires IsSlash(s, i) && x < 0 && pos <= |s|
    ensures CostsPart(s[i := x], pos) == CostsPart(s, pos)
  {
    hide Field;
    SameField(s, i, x, pos, MEMORY_FIELD);
    var m := Field(s, pos, MEMORY_FIELD);
    if m.Some? {
      SameField(s, i, x, m.value.1, TIME_FIELD);
      var t := Field(s, m.value.1, TIME_FIELD);
      if t.Some? {
        SameField(s, i, x, t.value.1, LANES_FIELD);
      }
    }
  }

  lemma SameBinaries(s: Text, i: nat, x: Char, pos: nat, maxSalt: nat, maxOut: nat)
    requires IsSlash(s, i) && x < 0 && pos <= |s|
    ensures BinaryPart(s[i := x], pos, maxSalt, maxOut) == BinaryPart(s, pos, maxSalt, maxOut)
  {
    hide Expect, Run, Bytes, NoLeftover, ByteCount;
    SameExpect(s, i, x, pos, DOLLAR);
    SameRun(s, i, x, pos + 1);
    if Expect(s, pos, DOLLAR).Some? {
      var salt := Binary(s, pos + 1, maxSalt);
      if salt.Some? {
        SameExpect(s, i, x, salt.value.1, DOLLAR);
        SameRun(s, i, x, salt.value.1 + 1);
      }
    }
  }

  /** The parser takes a negative `char` wherever it takes a slash, and reads the same fields. */
  lemma SlashOrNegative(s: Text, i: nat, x: Char, kind: ArgonType, maxSalt: nat, maxOut: nat)
    requires IsSlash(s, i) && x < 0
    ensures ParseFields(s[i := x], kind, maxSalt, maxOut) == ParseFields(s, kind, maxSalt, maxOut)
  {
    hide Expect, Field, CostsPart, BinaryPart;
    SameExpect(s, i, x, 0, DOLLAR);
    SameExpect(s, i, x, 1, TypeName(kind));
    var p := 1 + |TypeName(kind)|;
    if Expect(s, 0, DOLLAR).Some? && Expect(s, 1, TypeName(kind)).Some? {
      SameField(s, i, x, p, VERSION_FIELD);
      var v := VersionPart(s, p);
      if v.Some? {
        SameCosts(s, i, x, v.value.2);
        var c := CostsPart(s, v.value.2);
        if c.Some? {
          SameBinaries(s, i, x, c.value.3, maxSalt, maxOut);
        }
      }
    }
  }

  /** So where `char` is signed, every accepted hash string with a slash has others that are accepted with the same
      result, and no context prints to those. */
  lemma NegativeHashAccepted(s: Text, i: nat, x: Char, c0: Context, kind: ArgonType)
    requires Decoded(c0, s, kind).0 == OK && IsSlash(s, i) && x < 0
    ensures Decoded(c0, s[i := x], kind) == Decoded(c0, s, kind)
    ensures forall f :: Print(f, kind) != s[i := x]
  {
    hide ParseFields, ValidateInputs, Filled, Print;
    SlashOrNegative(s, i, x, kind, c0.saltlen, c0.outlen);
    forall f
      ensures Print(f, kind) != s[i := x]
    {
      PrintedChars(f, kind);
      assert s[i := x][i] == x;
    }
  }

  const EIGHT_ONES := [255, 255, 255, 255, 255, 255, 255, 255]

  /** There are such strings: the salt of eight bytes of ones is printed with a slash first. */
  lemma SlashInHash(c: Context, kind: ArgonType)
    requires BuffersHold(c) && ValidateInputs(c) == OK && FieldsOf(c).salt == EIGHT_ONES
    ensures exists i :: IsSlash(Print(FieldsOf(c), kind), i)
  {
    hide Dec, Print, Head, Costs;
    var f := FieldsOf(c);
    PrintParts(f, kind);
    assert Encode(f.salt)[0] == 47;
    var i := |Head(kind, f.version)| + |Costs(f)| + 1;
    assert Print(f, kind)[i] == Tail(f.salt, f.out)[1] == 47;
    assert IsSlash(Print(f, kind), i);
  }
}
