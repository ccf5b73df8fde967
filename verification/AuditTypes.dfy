/** The audit trail's data: an event as its producer builds it, the columns it is stored
    in, and the row the chain signs. */
module AuditTypes {
  import opened Wrappers
  import opened Hex
  import Utf8

  datatype Category = Auth | Channel | Output | Gateway | Plugin | Mount | System | Access | Player

  const ALL_CATEGORIES: seq<Category> :=
    [Auth, Channel, Output, Gateway, Plugin, Mount, System, Access, Player]

  function CategoryName(c: Category): string {
    match c
    case Auth => "auth"
    case Channel => "channel"
    case Output => "output"
    case Gateway => "gateway"
    case Plugin => "plugin"
    case Mount => "mount"
    case System => "system"
    case Access => "access"
    case Player => "player"
  }

  function CategoryFromString(s: string): Option<Category> {
    if s == "auth" then Some(Auth)
    else if s == "channel" then Some(Channel)
    else if s == "output" then Some(Output)
    else if s == "gateway" then Some(Gateway)
    else if s == "plugin" then Some(Plugin)
    else if s == "mount" then Some(Mount)
    else if s == "system" then Some(System)
    else if s == "access" then Some(Access)
    else if s == "player" then Some(Player)
    else None
  }

  function DefaultRetentionDays(c: Category): int {
    match c
    case Auth => 365
    case Channel => 90
    case Output => 90
    case Gateway => 90
    case Plugin => 90
    case Mount => 90
    case System => 30
    case Access => 30
    case Player => 365
  }

  type int32 = x: int | -0x8000_0000 <= x < 0x8000_0000

  /** Where an event happened, and where what it moved came from. */
  datatype Place = Place(objectId: Option<int>, groupId: Option<int>,
                         fromObjectId: Option<int>, fromGroupId: Option<int>)

  const NOWHERE := Place(None, None, None, None)

  /** An event as its producer builds it. */
  datatype Event = Event(
    ts: int, category: Category, action: string,
    actorUserId: Option<int>, actorUsername: string, actorRole: string, actorIp: string,
    targetType: string, targetId: string,
    httpMethod: string, httpPath: string, httpStatus: int32, elapsedMs: int,
    summary: string, detailsJson: string, requestId: string,
    place: Place)

  /** The columns of one table row that hold the event; None is SQL NULL. */
  datatype Columns = Columns(
    ts: int, category: string, action: string,
    actorUserId: Option<int>, actorUsername: Option<string>, actorRole: Option<string>, actorIp: Option<string>,
    targetType: Option<string>, targetId: Option<string>,
    httpMethod: Option<string>, httpPath: Option<string>, httpStatus: int, elapsedMs: int,
    summary: Option<string>, detailsJson: string, requestId: Option<string>,
    scoped: int, place: Place)

  datatype Row = Row(id: int, cols: Columns, prevMac: Option<Blob>, mac: Blob,
                     fingerprint: string, legacy: bool)

  /** The format new rows are written in: both places are signed. */
  const CURRENT_FORMAT: int32 := 2

  // ---- C strings -----------------------------------------------------------------------

  const NUL: char := '\0'

  /** What a C string keeps of a text: the bytes before the first NUL. Texts are bound to
      statements and read from columns as C strings. */
  function CStr(s: string): (r: string)
    ensures NUL !in r
  {
    if s == [] || s[0] == NUL then [] else [s[0]] + CStr(s[1..])
  }

  lemma {:induction false} CStrKeeps(s: string)
    ensures CStr(s) == s <==> NUL !in s
  {
    if s != [] && s[0] != NUL {
      CStrKeeps(s[1..]);
      assert s == [s[0]] + s[1..];
    }
  }

  /** What is kept is all up to the first NUL, or all there is. */
  lemma {:induction false} CStrMeans(s: string)
    ensures var n := |CStr(s)|;
            n <= |s| && CStr(s) == s[..n] && (n < |s| ==> s[n] == NUL)
  {
    if s != [] && s[0] != NUL {
      CStrMeans(s[1..]);
      assert s == [s[0]] + s[1..];
    }
  }

  /** The event with every text cut at its first NUL. */
  function Cut(e: Event): Event {
    e.(action := CStr(e.action),
       actorUsername := CStr(e.actorUsername), actorRole := CStr(e.actorRole), actorIp := CStr(e.actorIp),
       targetType := CStr(e.targetType), targetId := CStr(e.targetId),
       httpMethod := CStr(e.httpMethod), httpPath := CStr(e.httpPath),
       summary := CStr(e.summary), detailsJson := CStr(e.detailsJson), requestId := CStr(e.requestId))
  }

  /** No text of the event holds a NUL. */
  predicate NulFree(e: Event) {
    && NUL !in e.action
    && NUL !in e.actorUsername && NUL !in e.actorRole && NUL !in e.actorIp
    && NUL !in e.targetType && NUL !in e.targetId
    && NUL !in e.httpMethod && NUL !in e.httpPath
    && NUL !in e.summary && NUL !in e.detailsJson && NUL !in e.requestId
  }

  lemma CutKeeps(e: Event)
    ensures Cut(e) == e <==> NulFree(e)
  {
    hide CStr;
    CStrKeeps(e.action);
    CStrKeeps(e.actorUsername);
    CStrKeeps(e.actorRole);
    CStrKeeps(e.actorIp);
    CStrKeeps(e.targetType);
    CStrKeeps(e.targetId);
    CStrKeeps(e.httpMethod);
    CStrKeeps(e.httpPath);
    CStrKeeps(e.summary);
    CStrKeeps(e.detailsJson);
    CStrKeeps(e.requestId);
  }

  // ---- what can be dumped ----------------------------------------------------------------

  /** Every text of the event is UTF-8: only then does the JSON dump of it not throw. */
  predicate Dumpable(e: Event) {
    && Utf8.Valid(e.action)
    && Utf8.Valid(e.actorUsername) && Utf8.Valid(e.actorRole) && Utf8.Valid(e.actorIp)
    && Utf8.Valid(e.targetType) && Utf8.Valid(e.targetId)
    && Utf8.Valid(e.httpMethod) && Utf8.Valid(e.httpPath)
    && Utf8.Valid(e.summary) && Utf8.Valid(e.detailsJson) && Utf8.Valid(e.requestId)
  }

  lemma {:induction false} PrefixKept(s: string, n: nat)
    requires n <= |s| && (forall i | 0 <= i < n :: s[i] != NUL)
    ensures CStr(s) == s[..n] + CStr(s[n..])
    decreases n
  {
    if n > 0 {
      PrefixKept(s[1..], n - 1);
      assert s[1..][n - 1..] == s[n..] && s[..n] == [s[0]] + s[1..][..n - 1];
    } else {
      assert s[0..] == s && s[..0] == [];
    }
  }

  /** Cutting at a NUL never cuts a character in two. */
  lemma {:induction false} CutIsText(s: string)
    requires Utf8.Valid(s)
    ensures Utf8.Valid(CStr(s))
    decreases |s|
  {
    if s != [] && s[0] != NUL {
      var n := Utf8.Width(s[0]);
      CharacterHasNoNul(s);
      PrefixKept(s, n);
      CutIsText(s[n..]);
      var t := CStr(s);
      assert t[..n] == s[..n];
      Utf8.StartsAgain(s, t);
      assert t[n..] == CStr(s[n..]);
    }
  }

  lemma CharacterHasNoNul(s: string)
    requires s != [] && Utf8.Starts(s) && s[0] != NUL
    ensures forall i | 0 <= i < Utf8.Width(s[0]) :: s[i] != NUL
  {
  }

  // ---- writing and reading a row ---------------------------------------------------------

  /** The columns an event is stored in. Each text is cut at its first NUL. */
  function WriteColumns(e: Event): Columns {
    Columns(e.ts, CategoryName(e.category), CStr(e.action),
            e.actorUserId, Some(CStr(e.actorUsername)), Some(CStr(e.actorRole)), Some(CStr(e.actorIp)),
            Some(CStr(e.targetType)), Some(CStr(e.targetId)),
            Some(CStr(e.httpMethod)), Some(CStr(e.httpPath)), e.httpStatus, e.elapsedMs,
            Some(CStr(e.summary)), CStr(e.detailsJson), Some(CStr(e.requestId)),
            CURRENT_FORMAT, e.place)
  }

  /** A NULL text column reads as the empty string, any other up to its first NUL. */
  function ColText(t: Option<string>): string {
    if t.Some? then CStr(t.value) else ""
  }

  /** A NULL blob column reads as no bytes. */
  function ColBlob(b: Option<Blob>): Blob {
    if b.Some? then b.value else []
  }

  /** An INTEGER column read as a C int keeps its low 32 bits. */
  function ColInt(v: int): int32 {
    var low := v % 0x1_0000_0000;
    if low < 0x8000_0000 then low else low - 0x1_0000_0000
  }

  /** That is the number itself if it fits, and otherwise what differs from it by a multiple of
      two to the 32nd and does. */
  lemma ColIntMeans(v: int)
    ensures (v - ColInt(v)) % 0x1_0000_0000 == 0
    ensures -0x8000_0000 <= v < 0x8000_0000 ==> ColInt(v) == v
  {
  }

  /** A category text nobody knows reads as the system category. */
  function ReadCategory(text: string): Category {
    var cat := CategoryFromString(CStr(text));
    if cat.Some? then cat.value else System
  }

  /** The event a row's columns are read back as. */
  function ReadEvent(c: Columns): Event {
    Event(c.ts, ReadCategory(c.category), CStr(c.action),
          c.actorUserId, ColText(c.actorUsername), ColText(c.actorRole), ColText(c.actorIp),
          ColText(c.targetType), ColText(c.targetId),
          ColText(c.httpMethod), ColText(c.httpPath), ColInt(c.httpStatus), c.elapsedMs,
          ColText(c.summary), CStr(c.detailsJson), ColText(c.requestId),
          c.place)
  }

  lemma CategoryNameRead(c: Category)
    ensures CategoryFromString(CategoryName(c)) == Some(c)
  {
  }

  lemma CategoryNamePlain(c: Category)
    ensures CStr(CategoryName(c)) == CategoryName(c)
  {
    assert NUL !in CategoryName(c);
    CStrKeeps(CategoryName(c));
  }

  lemma CStrTwice(s: string)
    ensures CStr(CStr(s)) == CStr(s)
  {
    CStrKeeps(CStr(s));
  }

  /** A stored event is read back, in the current format, as what C strings keep of it: whole
      if and only if none of its texts holds a NUL. */
  lemma ColumnsRead(e: Event)
    ensures ReadEvent(WriteColumns(e)) == Cut(e)
    ensures ReadEvent(WriteColumns(e)) == e <==> NulFree(e)
    ensures WriteColumns(e).scoped == 2 && ColInt(WriteColumns(e).scoped) == CURRENT_FORMAT
  {
    hide CStr, CategoryName, CategoryFromString;
    CutKeeps(e);
    CategoryNameRead(e.category);
    CategoryNamePlain(e.category);
    CStrTwice(e.action);
    CStrTwice(e.actorUsername);
    CStrTwice(e.actorRole);
    CStrTwice(e.actorIp);
    CStrTwice(e.targetType);
    CStrTwice(e.targetId);
    CStrTwice(e.httpMethod);
    CStrTwice(e.httpPath);
    CStrTwice(e.summary);
    CStrTwice(e.detailsJson);
    CStrTwice(e.requestId);
  }

  /** A category text is read as the category of that name, and any other as the system. */
  lemma CategoryReadMeans(text: string)
    requires NUL !in text
    ensures ReadCategory(text)
         == match text
            case "auth" => Auth case "channel" => Channel case "output" => Output case "gateway" => Gateway
            case "plugin" => Plugin case "mount" => Mount case "access" => Access case "player" => Player
            case _ => System
  {
    CStrKeeps(text);
  }

  /** Each field is in the column of its name. */
  lemma ColumnsMean(e: Event)
    requires NulFree(e)
    ensures var c := WriteColumns(e);
            && c.ts == e.ts && c.action == e.action && c.actorUserId == e.actorUserId
            && c.actorUsername == Some(e.actorUsername) && c.actorRole == Some(e.actorRole)
            && c.actorIp == Some(e.actorIp) && c.targetType == Some(e.targetType) && c.targetId == Some(e.targetId)
            && c.httpMethod == Some(e.httpMethod) && c.httpPath == Some(e.httpPath) && c.httpStatus == e.httpStatus
            && c.elapsedMs == e.elapsedMs && c.summary == Some(e.summary) && c.detailsJson == e.detailsJson
            && c.requestId == Some(e.requestId) && c.place == e.place && ReadCategory(c.category) == e.category
  {
    hide CategoryFromString, CategoryName;
    CutKeeps(e);
    CategoryNameRead(e.category);
    CategoryNamePlain(e.category);
  }

  /** The row of an event that could be dumped can be dumped again. */
  lemma RowIsDumpable(e: Event)
    requires Dumpable(e)
    ensures Dumpable(ReadEvent(WriteColumns(e)))
  {
    hide CStr, Utf8.Valid, WriteColumns, ReadEvent;
    ColumnsRead(e);
    CutIsText(e.action);
    CutIsText(e.actorUsername);
    CutIsText(e.actorRole);
    CutIsText(e.actorIp);
    CutIsText(e.targetType);
    CutIsText(e.targetId);
    CutIsText(e.httpMethod);
    CutIsText(e.httpPath);
    CutIsText(e.summary);
    CutIsText(e.detailsJson);
    CutIsText(e.requestId);
  }
}
