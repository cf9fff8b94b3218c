/**
 The input of the washer, and the meta data its two header elements fill.
 */
module WashHeader {
  import opened Base
  import opened Keys

  // ---- input -------------------------------------------------------------------

  /** The values a parser looks up in one raw JSON text; a missing text is "", a missing number 0. */
  datatype Json = Json(
    uid: uint64, name: string, face: string, level: uint64, wealth: uint64, medal: Option<JsonMedal>, body: string)

  datatype JsonMedal = JsonMedal(roomUid: uint64, name: string, level: uint64, light: bool, guardLevel: uint64)

  /** An attribute with its text, and what the text decodes to as JSON and as a time. */
  datatype Attr = Attr(name: string, value: string, json: Json, time: Option<int>)

  datatype Token = Start(element: string, attrs: seq<Attr>) | Other | Malformed

  // ---- numbers -----------------------------------------------------------------

  const MAX_UINT := 0xFFFF_FFFF_FFFF_FFFF
  const MAX_INT := 0x7FFF_FFFF_FFFF_FFFF
  const MIN_INT := -0x8000_0000_0000_0000

  /** strconv.ParseUint in base 10 on the rest of a text: None is a syntax error, and a number
      that is too large ends the scan at the largest one. */
  function ScanUint(n: uint64, s: string): Option<uint64>
    decreases |s|
  {
    if s == [] then Some(n)
    else if !('0' <= s[0] <= '9') then None
    else
      var next := 10 * n + (s[0] as int - '0' as int);
      if next > MAX_UINT then Some(MAX_UINT) else ScanUint(next, s[1..])
  }

  function Signed(negative: bool, n: uint64): int64 {
    var i: int := if negative then 0 - n else n;
    if i > MAX_INT then MAX_INT else if i < MIN_INT then MIN_INT else i
  }

  /** strconv.ParseInt(s, 10, 64) with its error dropped: 0 for a syntax error, the nearest
      number for one that does not fit. */
  function ParseInt(s: string): int64 {
    var signed := s != [] && (s[0] == '-' || s[0] == '+');
    var digits := if signed then s[1..] else s;
    if digits == [] then 0
    else
      match ScanUint(0, digits)
      case None => 0
      case Some(n) => Signed(s[0] == '-', n)
  }

  ghost predicate Digits(s: string) {
    forall i :: 0 <= i < |s| ==> '0' <= s[i] <= '9'
  }

  function Clamped(n: nat): uint64 {
    if n > MAX_UINT then MAX_UINT else n
  }

  lemma {:induction false} ScanLast(n: uint64, s: string, c: char)
    requires Digits(s) && '0' <= c <= '9'
    ensures ScanUint(n, s) != None
    ensures ScanUint(n, s + [c]) == Some(Clamped(10 * ScanUint(n, s).value + (c as int - '0' as int)))
    decreases |s|
  {
    if s == [] {
      assert s + [c] == [c] && [c][1..] == [];
    } else {
      assert (s + [c])[1..] == s[1..] + [c];
      var next := 10 * n + (s[0] as int - '0' as int);
      if next <= MAX_UINT {
        ScanLast(next, s[1..], c);
      }
    }
  }

  lemma {:induction false} ScanDigits(s: string)
    requires Digits(s)
    ensures ScanUint(0, s) == Some(Clamped(ParseUint(s)))
  {
    if s == [] {
    } else {
      var n := |s| - 1;
      ScanDigits(s[..n]);
      ScanLast(0, s[..n], s[n]);
      assert s == s[..n] + [s[n]];
    }
  }

  lemma ParseSigned(digits: string)
    requires Digits(digits) && digits != []
    ensures ParseInt(digits) == Signed(false, Clamped(ParseUint(digits)))
    ensures ParseInt("-" + digits) == Signed(true, Clamped(ParseUint(digits)))
  {
    ScanDigits(digits);
    assert ("-" + digits)[1..] == digits;
  }

  lemma ParsePlus(digits: string)
    requires Digits(digits) && digits != []
    ensures ParseInt("+" + digits) == ParseInt(digits)
  {
    ParseSigned(digits);
    ScanDigits(digits);
    assert ("+" + digits)[1..] == digits;
  }

  lemma {:induction false} ScanOn(n: uint64, a: string, b: string)
    requires Digits(a) && ScanUint(n, a) != None && ScanUint(n, a).value < MAX_UINT
    ensures ScanUint(n, a + b) == ScanUint(ScanUint(n, a).value, b)
    decreases |a|
  {
    if a == [] {
      assert a + b == b;
    } else {
      assert (a + b)[1..] == a[1..] + b;
      ScanOn(10 * n + (a[0] as int - '0' as int), a[1..], b);
    }
  }

  lemma ScanBad(digits: string, bad: char, rest: string)
    requires Digits(digits) && ParseUint(digits) < MAX_UINT && !('0' <= bad <= '9')
    ensures ScanUint(0, digits + ([bad] + rest)) == None
  {
    ScanDigits(digits);
    ScanOn(0, digits, [bad] + rest);
  }

  /** Nothing but a sign, or a character that is no digit after digits that fit, gives 0. */
  lemma ParseBad(digits: string, bad: char, rest: string)
    requires Digits(digits) && ParseUint(digits) < MAX_UINT && !('0' <= bad <= '9')
    ensures ParseInt("") == 0 && ParseInt("-") == 0 && ParseInt("+") == 0
    ensures digits != [] ==> ParseInt(digits + ([bad] + rest)) == 0
    ensures ParseInt("-" + (digits + ([bad] + rest))) == 0 && ParseInt("+" + (digits + ([bad] + rest))) == 0
  {
    var tail := digits + ([bad] + rest);
    ScanBad(digits, bad, rest);
    assert ("-" + tail)[1..] == tail && ("+" + tail)[1..] == tail;
  }

  lemma SignedClamped(i: int)
    ensures Signed(i < 0, Clamped(if i < 0 then -i else i)) ==
            if i > MAX_INT then MAX_INT else if i < MIN_INT then MIN_INT else i
  {
  }

  /** Every 64-bit number written in decimal is read back; a larger or smaller one is read as the
      nearest. */
  lemma ParseIntItoa(i: int)
    ensures ParseInt(Itoa(i)) == if i > MAX_INT then MAX_INT else if i < MIN_INT then MIN_INT else i
  {
    var n := if i < 0 then -i else i;
    ParseFormat(n);
    ParseSigned(FormatUint(n));
    SignedClamped(i);
  }

  // ---- meta data -----------------------------------------------------------------

  datatype Field = RecorderVersion | RoomId | ShortRoomId | Name | Title | AreaNameParent | AreaNameChild | StartTime

  datatype Meta = Meta(
    recorderVersion: string, roomId: int64, shortRoomId: int64, name: string, title: string,
    areaNameParent: string, areaNameChild: string, startTime: Option<int>)

  const NO_META := Meta("", 0, 0, "", "", "", "", None)

  /** The field an attribute of an element sets, if any. */
  function FieldOf(element: string, name: string): Option<Field> {
    if element == "BililiveRecorder" then
      if name == "version" then Some(RecorderVersion) else None
    else if element == "BililiveRecorderRecordInfo" then
      if name == "roomid" then Some(RoomId)
      else if name == "shortid" then Some(ShortRoomId)
      else if name == "name" then Some(Name)
      else if name == "title" then Some(Title)
      else if name == "areanameparent" then Some(AreaNameParent)
      else if name == "areanamechild" then Some(AreaNameChild)
      else if name == "start_time" then Some(StartTime)
      else None
    else None
  }

  function SetField(meta: Meta, field: Field, attr: Attr): Meta {
    match field
    case RecorderVersion => meta.(recorderVersion := attr.value)
    case RoomId => meta.(roomId := ParseInt(attr.value))
    case ShortRoomId => meta.(shortRoomId := ParseInt(attr.value))
    case Name => meta.(name := attr.value)
    case Title => meta.(title := attr.value)
    case AreaNameParent => meta.(areaNameParent := attr.value)
    case AreaNameChild => meta.(areaNameChild := attr.value)
    case StartTime => meta.(startTime := attr.time)
  }

  function SetAttr(meta: Meta, element: string, attr: Attr): Meta {
    match FieldOf(element, attr.name)
    case None => meta
    case Some(field) => SetField(meta, field, attr)
  }

  /** An attribute that sets a field. */
  datatype Header = Header(field: Field, attr: Attr)

  function HeadersOf(element: string, attrs: seq<Attr>): seq<Header> {
    if attrs == [] then []
    else
      var last := attrs[|attrs| - 1];
      HeadersOf(element, attrs[..|attrs| - 1]) +
      match FieldOf(element, last.name)
      case None => []
      case Some(field) => [Header(field, last)]
  }

  function Headers(token: Token): seq<Header> {
    if token.Start? then HeadersOf(token.element, token.attrs) else []
  }

  function AllHeaders(tokens: seq<Token>): seq<Header> {
    if tokens == [] then [] else AllHeaders(tokens[..|tokens| - 1]) + Headers(tokens[|tokens| - 1])
  }

  function MetaAfter(meta: Meta, headers: seq<Header>): Meta {
    if headers == [] then meta
    else
      var last := headers[|headers| - 1];
      SetField(MetaAfter(meta, headers[..|headers| - 1]), last.field, last.attr)
  }

  lemma HeadersStep(meta: Meta, element: string, attrs: seq<Attr>, attr: Attr)
    ensures MetaAfter(meta, HeadersOf(element, attrs + [attr])) ==
            SetAttr(MetaAfter(meta, HeadersOf(element, attrs)), element, attr)
  {
    assert (attrs + [attr])[..|attrs|] == attrs;
    var before := HeadersOf(element, attrs);
    match FieldOf(element, attr.name) {
      case None => assert before + [] == before;
      case Some(field) => assert (before + [Header(field, attr)])[..|before|] == before;
    }
  }

  lemma {:induction false} MetaConcat(meta: Meta, a: seq<Header>, b: seq<Header>)
    ensures MetaAfter(meta, a + b) == MetaAfter(MetaAfter(meta, a), b)
  {
    if b == [] {
      assert a + b == a;
    } else {
      assert (a + b)[..|a + b| - 1] == a + b[..|b| - 1];
      MetaConcat(meta, a, b[..|b| - 1]);
    }
  }

  // ---- which attribute counts -------------------------------------------------------

  datatype Value = Text(text: string) | Number(number: int64) | Time(time: Option<int>)

  function Get(meta: Meta, field: Field): Value {
    match field
    case RecorderVersion => Text(meta.recorderVersion)
    case RoomId => Number(meta.roomId)
    case ShortRoomId => Number(meta.shortRoomId)
    case Name => Text(meta.name)
    case Title => Text(meta.title)
    case AreaNameParent => Text(meta.areaNameParent)
    case AreaNameChild => Text(meta.areaNameChild)
    case StartTime => Time(meta.startTime)
  }

  /** What a text means for a field: numbers and times are decoded, errors giving zero. */
  function Decoded(field: Field, attr: Attr): Value {
    if field.RoomId? || field.ShortRoomId? then Number(ParseInt(attr.value))
    else if field.StartTime? then Time(attr.time)
    else Text(attr.value)
  }

  ghost predicate IsLastHeader(headers: seq<Header>, field: Field, i: int) {
    0 <= i < |headers| && headers[i].field == field && forall j :: i < j < |headers| ==> headers[j].field != field
  }

  /** A field holds what the last attribute that sets it decodes to, whatever else is set. */
  lemma {:induction false} MetaIsLast(headers: seq<Header>, field: Field, i: int)
    requires IsLastHeader(headers, field, i)
    ensures Get(MetaAfter(NO_META, headers), field) == Decoded(field, headers[i].attr)
  {
    var n := |headers| - 1;
    SetGet(MetaAfter(NO_META, headers[..n]), headers[n].field, headers[n].attr, field);
    if i == n {
    } else {
      MetaIsLast(headers[..n], field, i);
    }
  }

  /** A field that no attribute sets stays zero. */
  lemma {:induction false} MetaUnset(headers: seq<Header>, field: Field)
    requires forall i :: 0 <= i < |headers| ==> headers[i].field != field
    ensures Get(MetaAfter(NO_META, headers), field) == Get(NO_META, field)
  {
    if headers == [] {
    } else {
      var n := |headers| - 1;
      MetaUnset(headers[..n], field);
      SetGet(MetaAfter(NO_META, headers[..n]), headers[n].field, headers[n].attr, field);
    }
  }

  lemma SetGet(meta: Meta, target: Field, attr: Attr, field: Field)
    ensures Get(SetField(meta, target, attr), field) ==
            if target == field then Decoded(field, attr) else Get(meta, field)
  {
  }

  // ---- the table of attributes -------------------------------------------------------

  const RECORDER := "BililiveRecorder"
  const RECORD_INFO := "BililiveRecorderRecordInfo"

  /** All attributes of the elements of a name, in order. */
  ghost function AttrsIn(tokens: seq<Token>, element: string): seq<Attr> {
    if tokens == [] then []
    else
      var last := tokens[|tokens| - 1];
      AttrsIn(tokens[..|tokens| - 1], element) + if last.Start? && last.element == element then last.attrs else []
  }

  ghost function LastNamed(attrs: seq<Attr>, name: string): Option<Attr> {
    if attrs == [] then None
    else if attrs[|attrs| - 1].name == name then Some(attrs[|attrs| - 1])
    else LastNamed(attrs[..|attrs| - 1], name)
  }

  lemma {:induction false} LastNamedConcat(a: seq<Attr>, b: seq<Attr>, name: string)
    ensures LastNamed(a + b, name) == if LastNamed(b, name) != None then LastNamed(b, name) else LastNamed(a, name)
  {
    if b == [] {
      assert a + b == a;
    } else {
      LastNamedConcat(a, b[..|b| - 1], name);
      assert (a + b)[..|a + b| - 1] == a + b[..|b| - 1];
    }
  }

  /** The field is set by attributes of this name in elements of this name, and by no others. */
  ghost predicate SetOnlyBy(field: Field, element: string, name: string) {
    forall e, n :: FieldOf(e, n) == Some(field) <==> e == element && n == name
  }

  ghost function OrElse(attr: Option<Attr>, field: Field, before: Value): Value {
    if attr == None then before else Decoded(field, attr.value)
  }

  lemma {:induction false} FieldInElement(meta: Meta, e: string, attrs: seq<Attr>, field: Field, element: string,
                                          name: string)
    requires SetOnlyBy(field, element, name)
    ensures Get(MetaAfter(meta, HeadersOf(e, attrs)), field) ==
            if e == element then OrElse(LastNamed(attrs, name), field, Get(meta, field)) else Get(meta, field)
  {
    if attrs == [] {
    } else {
      var front, last := attrs[..|attrs| - 1], attrs[|attrs| - 1];
      FieldInElement(meta, e, front, field, element, name);
      HeadersStep(meta, e, front, last);
      assert front + [last] == attrs;
      var sets := FieldOf(e, last.name);
      if sets != None {
        SetGet(MetaAfter(meta, HeadersOf(e, front)), sets.value, last, field);
      }
      assert FieldOf(e, last.name) == Some(field) <==> e == element && last.name == name;
    }
  }

  lemma {:induction false} FieldByName(tokens: seq<Token>, field: Field, element: string, name: string)
    requires SetOnlyBy(field, element, name)
    ensures Get(MetaAfter(NO_META, AllHeaders(tokens)), field) ==
            OrElse(LastNamed(AttrsIn(tokens, element), name), field, Get(NO_META, field))
  {
    if tokens == [] {
    } else {
      var front, last := tokens[..|tokens| - 1], tokens[|tokens| - 1];
      var before := MetaAfter(NO_META, AllHeaders(front));
      FieldByName(front, field, element, name);
      MetaConcat(NO_META, AllHeaders(front), Headers(last));
      if last.Start? {
        FieldInElement(before, last.element, last.attrs, field, element, name);
        LastNamedConcat(AttrsIn(front, element), last.attrs, name);
      }
      assert AttrsIn(front, element) + [] == AttrsIn(front, element);
    }
  }

  lemma RecorderFields(name: string)
    ensures FieldOf("BililiveRecorder", name) == if name == "version" then Some(RecorderVersion) else None
  {
  }

  lemma RecordInfoFields(name: string)
    ensures FieldOf("BililiveRecorderRecordInfo", name) == Some(RoomId) <==> name == "roomid"
    ensures FieldOf("BililiveRecorderRecordInfo", name) == Some(ShortRoomId) <==> name == "shortid"
    ensures FieldOf("BililiveRecorderRecordInfo", name) == Some(Name) <==> name == "name"
    ensures FieldOf("BililiveRecorderRecordInfo", name) == Some(Title) <==> name == "title"
    ensures FieldOf("BililiveRecorderRecordInfo", name) == Some(AreaNameParent) <==> name == "areanameparent"
    ensures FieldOf("BililiveRecorderRecordInfo", name) == Some(AreaNameChild) <==> name == "areanamechild"
    ensures FieldOf("BililiveRecorderRecordInfo", name) == Some(StartTime) <==> name == "start_time"
    ensures FieldOf("BililiveRecorderRecordInfo", name) != Some(RecorderVersion)
  {
    assert |RECORDER| != |RECORD_INFO|;
    assert |"roomid"| == 6 && |"shortid"| == 7 && |"name"| == 4 && |"title"| == 5;
    assert |"areanameparent"| == 14 && |"areanamechild"| == 13 && |"start_time"| == 10;
  }

  lemma OtherElements(element: string, name: string)
    requires element != "BililiveRecorder" && element != "BililiveRecorderRecordInfo"
    ensures FieldOf(element, name) == None
  {
  }

  lemma TableHolds(field: Field)
    ensures field.RecorderVersion? ==> SetOnlyBy(field, "BililiveRecorder", "version")
    ensures field.RoomId? ==> SetOnlyBy(field, "BililiveRecorderRecordInfo", "roomid")
    ensures field.ShortRoomId? ==> SetOnlyBy(field, "BililiveRecorderRecordInfo", "shortid")
    ensures field.Name? ==> SetOnlyBy(field, "BililiveRecorderRecordInfo", "name")
    ensures field.Title? ==> SetOnlyBy(field, "BililiveRecorderRecordInfo", "title")
    ensures field.AreaNameParent? ==> SetOnlyBy(field, "BililiveRecorderRecordInfo", "areanameparent")
    ensures field.AreaNameChild? ==> SetOnlyBy(field, "BililiveRecorderRecordInfo", "areanamechild")
    ensures field.StartTime? ==> SetOnlyBy(field, "BililiveRecorderRecordInfo", "start_time")
  {
    assert |RECORDER| != |RECORD_INFO|;
    forall e: string, n: string ensures e == RECORDER || e == RECORD_INFO || FieldOf(e, n) == None {
      if e != RECORDER && e != RECORD_INFO {
        OtherElements(e, n);
      }
    }
    forall n: string {
      RecorderFields(n);
    }
    forall n: string {
      RecordInfoFields(n);
    }
  }

  /** The meta data of a whole file, field by field: each is what the last attribute of its name in
      elements of its name says, and zero without one. */
  lemma {:induction false} MetaByName(tokens: seq<Token>)
    ensures var meta := MetaAfter(NO_META, AllHeaders(tokens));
            var version := LastNamed(AttrsIn(tokens, "BililiveRecorder"), "version");
            meta.recorderVersion == if version == None then "" else version.value.value
    ensures var meta, attrs := MetaAfter(NO_META, AllHeaders(tokens)), AttrsIn(tokens, "BililiveRecorderRecordInfo");
            && meta.roomId == NumberOf(LastNamed(attrs, "roomid"))
            && meta.shortRoomId == NumberOf(LastNamed(attrs, "shortid"))
            && meta.name == TextOf(LastNamed(attrs, "name"))
            && meta.title == TextOf(LastNamed(attrs, "title"))
            && meta.areaNameParent == TextOf(LastNamed(attrs, "areanameparent"))
            && meta.areaNameChild == TextOf(LastNamed(attrs, "areanamechild"))
            && meta.startTime == TimeOf(LastNamed(attrs, "start_time"))
  {
    TextsByName(tokens);
    NumbersByName(tokens);
  }

  lemma TextsByName(tokens: seq<Token>)
    ensures var meta, attrs := MetaAfter(NO_META, AllHeaders(tokens)), AttrsIn(tokens, "BililiveRecorderRecordInfo");
            && meta.recorderVersion == TextOf(LastNamed(AttrsIn(tokens, "BililiveRecorder"), "version"))
            && meta.name == TextOf(LastNamed(attrs, "name"))
            && meta.title == TextOf(LastNamed(attrs, "title"))
            && meta.areaNameParent == TextOf(LastNamed(attrs, "areanameparent"))
            && meta.areaNameChild == TextOf(LastNamed(attrs, "areanamechild"))
  {
    TitlesByName(tokens);
    AreasByName(tokens);
  }

  lemma TitlesByName(tokens: seq<Token>)
    ensures var meta, attrs := MetaAfter(NO_META, AllHeaders(tokens)), AttrsIn(tokens, "BililiveRecorderRecordInfo");
            && meta.recorderVersion == TextOf(LastNamed(AttrsIn(tokens, "BililiveRecorder"), "version"))
            && meta.name == TextOf(LastNamed(attrs, "name"))
            && meta.title == TextOf(LastNamed(attrs, "title"))
  {
    TableHolds(RecorderVersion);
    TableHolds(Name);
    TableHolds(Title);
    FieldByName(tokens, RecorderVersion, "BililiveRecorder", "version");
    FieldByName(tokens, Name, "BililiveRecorderRecordInfo", "name");
    FieldByName(tokens, Title, "BililiveRecorderRecordInfo", "title");
  }

  lemma AreasByName(tokens: seq<Token>)
    ensures var meta, attrs := MetaAfter(NO_META, AllHeaders(tokens)), AttrsIn(tokens, "BililiveRecorderRecordInfo");
            && meta.areaNameParent == TextOf(LastNamed(attrs, "areanameparent"))
            && meta.areaNameChild == TextOf(LastNamed(attrs, "areanamechild"))
  {
    TableHolds(AreaNameParent);
    TableHolds(AreaNameChild);
    FieldByName(tokens, AreaNameParent, "BililiveRecorderRecordInfo", "areanameparent");
    FieldByName(tokens, AreaNameChild, "BililiveRecorderRecordInfo", "areanamechild");
  }

  lemma NumbersByName(tokens: seq<Token>)
    ensures var meta, attrs := MetaAfter(NO_META, AllHeaders(tokens)), AttrsIn(tokens, "BililiveRecorderRecordInfo");
            && meta.roomId == NumberOf(LastNamed(attrs, "roomid"))
            && meta.shortRoomId == NumberOf(LastNamed(attrs, "shortid"))
            && meta.startTime == TimeOf(LastNamed(attrs, "start_time"))
  {
    TableHolds(RoomId);
    FieldByName(tokens, RoomId, "BililiveRecorderRecordInfo", "roomid");
    TableHolds(ShortRoomId);
    FieldByName(tokens, ShortRoomId, "BililiveRecorderRecordInfo", "shortid");
    TableHolds(StartTime);
    FieldByName(tokens, StartTime, "BililiveRecorderRecordInfo", "start_time");
  }

  function TextOf(attr: Option<Attr>): string {
    if attr == None then "" else attr.value.value
  }

  function NumberOf(attr: Option<Attr>): int64 {
    if attr == None then 0 else ParseInt(attr.value.value)
  }

  function TimeOf(attr: Option<Attr>): Option<int> {
    if attr == None then None else attr.value.time
  }
}
