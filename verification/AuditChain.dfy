/** What the MAC of an audit row covers: the canonical text of the event behind the previous
    MAC, exactly as the code spells it. The chain itself is HashChain's; here a table row
    becomes a link of it, and what the scan's verdict means for the events is stated. */
module AuditChain {
  import opened Wrappers
  import opened Hex
  import opened AuditTypes
  import opened HashChain
  import FlatJson
  import Utf8

  // ---- what is signed ----------------------------------------------------------------

  function Opt(v: Option<int>): FlatJson.Value {
    if v.Some? then FlatJson.Int(v.value) else FlatJson.Null
  }

  /** Members are dumped in key order, which is how nlohmann::json keeps an object. */
  function Head(e: Event): seq<FlatJson.Member> {
    [ FlatJson.Member("action", FlatJson.Str(e.action)),
      FlatJson.Member("actor_ip", FlatJson.Str(e.actorIp)),
      FlatJson.Member("actor_role", FlatJson.Str(e.actorRole)),
      FlatJson.Member("actor_user_id", Opt(e.actorUserId)),
      FlatJson.Member("actor_username", FlatJson.Str(e.actorUsername)),
      FlatJson.Member("category", FlatJson.Str(CategoryName(e.category))),
      FlatJson.Member("details_json", FlatJson.Str(e.detailsJson)),
      FlatJson.Member("elapsed_ms", FlatJson.Int(e.elapsedMs)),
      FlatJson.Member("http_method", FlatJson.Str(e.httpMethod)),
      FlatJson.Member("http_path", FlatJson.Str(e.httpPath)),
      FlatJson.Member("http_status", FlatJson.Int(e.httpStatus)),
      FlatJson.Member("request_id", FlatJson.Str(e.requestId)) ]
  }

  function FromPart(e: Event, scoped: int32): seq<FlatJson.Member> {
    if scoped >= 2 then
      [ FlatJson.Member("scope_from_group_id", Opt(e.place.fromGroupId)),
        FlatJson.Member("scope_from_object_id", Opt(e.place.fromObjectId)) ]
    else []
  }

  function ScopePart(e: Event, scoped: int32): seq<FlatJson.Member> {
    if scoped >= 1 then
      [ FlatJson.Member("scope_group_id", Opt(e.place.groupId)),
        FlatJson.Member("scope_object_id", Opt(e.place.objectId)) ]
    else []
  }

  function Last(e: Event): seq<FlatJson.Member> {
    [ FlatJson.Member("summary", FlatJson.Str(e.summary)),
      FlatJson.Member("target_id", FlatJson.Str(e.targetId)),
      FlatJson.Member("target_type", FlatJson.Str(e.targetType)),
      FlatJson.Member("ts_unix_ms", FlatJson.Int(e.ts)) ]
  }

  function Members(e: Event, scoped: int32): (ms: seq<FlatJson.Member>)
    ensures FlatJson.PlainStart(ms)
  {
    Head(e) + ((FromPart(e, scoped) + ScopePart(e, scoped)) + Last(e))
  }

  function Canonical(e: Event, scoped: int32): string {
    FlatJson.Text(Members(e, scoped))
  }

  /** `x` comes before `y` where they first differ, as std::string compares: by bytes. */
  predicate PrecedesAt(x: string, y: string, n: nat) {
    n <= |x| && n < |y| && x[..n] == y[..n] && (n == |x| || x[n] < y[n])
  }

  ghost predicate Precedes(x: string, y: string) {
    exists n: nat :: PrecedesAt(x, y, n)
  }

  /** No key twice, and all in the order std::map keeps them. */
  ghost predicate Ascending(ms: seq<FlatJson.Member>) {
    forall i | 0 < i < |ms| :: Precedes(ms[i - 1].key, ms[i].key)
  }

  predicate Holds(ms: seq<FlatJson.Member>, key: string, text: string) {
    FlatJson.Member(key, FlatJson.Str(text)) in ms
  }

  predicate HoldsNumber(ms: seq<FlatJson.Member>, key: string, number: int) {
    FlatJson.Member(key, FlatJson.Int(number)) in ms
  }

  /** A number, or null where there is none. */
  predicate HoldsOptional(ms: seq<FlatJson.Member>, key: string, number: Option<int>) {
    FlatJson.Member(key, if number.Some? then FlatJson.Int(number.value) else FlatJson.Null) in ms
  }

  lemma HeadAscends()
    ensures Precedes("action", "actor_ip")
    ensures Precedes("actor_ip", "actor_role")
    ensures Precedes("actor_role", "actor_user_id")
    ensures Precedes("actor_user_id", "actor_username")
    ensures Precedes("actor_username", "category")
    ensures Precedes("category", "details_json")
  {
    assert PrecedesAt("action", "actor_ip", 3);
    assert PrecedesAt("actor_ip", "actor_role", 6);
    assert PrecedesAt("actor_role", "actor_user_id", 6);
    assert PrecedesAt("actor_user_id", "actor_username", 10);
    assert PrecedesAt("actor_username", "category", 0);
    assert PrecedesAt("category", "details_json", 0);
  }

  lemma HeadAscendsOn()
    ensures Precedes("details_json", "elapsed_ms")
    ensures Precedes("elapsed_ms", "http_method")
    ensures Precedes("http_method", "http_path")
    ensures Precedes("http_path", "http_status")
    ensures Precedes("http_status", "request_id")
  {
    assert PrecedesAt("details_json", "elapsed_ms", 0);
    assert PrecedesAt("elapsed_ms", "http_method", 0);
    assert PrecedesAt("http_method", "http_path", 5);
    assert PrecedesAt("http_path", "http_status", 5);
    assert PrecedesAt("http_status", "request_id", 0);
  }

  lemma LastAscends()
    ensures Precedes("summary", "target_id")
    ensures Precedes("target_id", "target_type")
    ensures Precedes("target_type", "ts_unix_ms")
    ensures Precedes("request_id", "summary")
  {
    assert PrecedesAt("summary", "target_id", 0);
    assert PrecedesAt("target_id", "target_type", 7);
    assert PrecedesAt("target_type", "ts_unix_ms", 1);
    assert PrecedesAt("request_id", "summary", 0);
  }

  lemma PlacesAscend()
    ensures Precedes("scope_from_group_id", "scope_from_object_id")
    ensures Precedes("scope_group_id", "scope_object_id")
    ensures Precedes("request_id", "scope_from_group_id")
    ensures Precedes("request_id", "scope_group_id")
    ensures Precedes("scope_from_object_id", "scope_group_id")
    ensures Precedes("scope_object_id", "summary")
  {
    assert PrecedesAt("scope_from_group_id", "scope_from_object_id", 11);
    assert PrecedesAt("scope_group_id", "scope_object_id", 6);
    assert PrecedesAt("request_id", "scope_from_group_id", 0);
    assert PrecedesAt("request_id", "scope_group_id", 0);
    assert PrecedesAt("scope_from_object_id", "scope_group_id", 6);
    assert PrecedesAt("scope_object_id", "summary", 1);
  }

  lemma NamesAscend(e: Event, s: int32)
    ensures Ascending(Members(e, s))
  {
    hide Precedes;
    HeadAscends();
    HeadAscendsOn();
    PlacesAscend();
    LastAscends();
  }

  lemma MembersAre(e: Event, s: int32)
    ensures forall m | m in Head(e) :: m in Members(e, s)
    ensures forall m | m in Last(e) :: m in Members(e, s)
    ensures forall m | m in ScopePart(e, s) :: m in Members(e, s)
    ensures forall m | m in FromPart(e, s) :: m in Members(e, s)
  {
  }

  /** What the signed text says, read back as JSON: under each name the field of that name, the
      places under theirs from the format on that knows them, nothing else, and the names in
      ascending order, none twice. */
  lemma TextNames(e: Event, s: int32)
    ensures var ms := FlatJson.Read(Canonical(e, s));
            && HoldsNumber(ms, "ts_unix_ms", e.ts)
            && Holds(ms, "action", e.action)
            && HoldsOptional(ms, "actor_user_id", e.actorUserId)
            && Holds(ms, "actor_username", e.actorUsername)
            && Holds(ms, "actor_role", e.actorRole)
            && Holds(ms, "actor_ip", e.actorIp)
            && Holds(ms, "target_type", e.targetType)
            && Holds(ms, "target_id", e.targetId)
            && Holds(ms, "http_method", e.httpMethod)
            && Holds(ms, "http_path", e.httpPath)
            && HoldsNumber(ms, "http_status", e.httpStatus)
            && HoldsNumber(ms, "elapsed_ms", e.elapsedMs)
            && Holds(ms, "summary", e.summary)
            && Holds(ms, "details_json", e.detailsJson)
            && Holds(ms, "request_id", e.requestId)
    ensures var ms := FlatJson.Read(Canonical(e, s));
            Holds(ms, "category", match e.category
                                  case Auth => "auth" case Channel => "channel" case Output => "output"
                                  case Gateway => "gateway" case Plugin => "plugin" case Mount => "mount"
                                  case System => "system" case Access => "access" case Player => "player")
    ensures var ms := FlatJson.Read(Canonical(e, s));
            && (s >= 1 ==> HoldsOptional(ms, "scope_object_id", e.place.objectId)
                           && HoldsOptional(ms, "scope_group_id", e.place.groupId))
            && (s >= 2 ==> HoldsOptional(ms, "scope_from_object_id", e.place.fromObjectId)
                           && HoldsOptional(ms, "scope_from_group_id", e.place.fromGroupId))
            && |ms| == 16 + (if s >= 1 then 2 else 0) + (if s >= 2 then 2 else 0)
            && Ascending(ms)
  {
    FlatJson.TextRead(Members(e, s));
    var ms := Members(e, s);
    assert FlatJson.Read(Canonical(e, s)) == ms;
    MembersAre(e, s);
    NamesAscend(e, s);
  }

  predicate TextValid(m: FlatJson.Member) {
    m.value.Str? ==> Utf8.Valid(m.value.text)
  }

  predicate AllTextsValid(ms: seq<FlatJson.Member>) {
    forall i | 0 <= i < |ms| :: TextValid(ms[i])
  }

  lemma TextsBoth(ms: seq<FlatJson.Member>, ns: seq<FlatJson.Member>)
    ensures AllTextsValid(ms + ns) <==> AllTextsValid(ms) && AllTextsValid(ns)
  {
    hide TextValid;
    if AllTextsValid(ms + ns) {
      forall i | 0 <= i < |ms| ensures TextValid(ms[i]) {
        assert (ms + ns)[i] == ms[i];
      }
      forall i | 0 <= i < |ns| ensures TextValid(ns[i]) {
        assert (ms + ns)[|ms| + i] == ns[i];
      }
    }
  }

  /** The dump of an event throws exactly when some text in it is not UTF-8. */
  lemma DumpableMeans(e: Event, s: int32)
    ensures Dumpable(e) <==> AllTextsValid(FlatJson.Read(Canonical(e, s)))
  {
    hide Utf8.Valid, CategoryName, AllTextsValid, Head, Last, FromPart, ScopePart, FlatJson.Text, FlatJson.Read;
    FlatJson.TextRead(Members(e, s));
    CategoryIsText(e.category);
    var places := FromPart(e, s) + ScopePart(e, s);
    TextsBoth(Head(e), places + Last(e));
    TextsBoth(places, Last(e));
    HeadTexts(e);
    LastTexts(e);
    PlacesAreNumbers(e, s);
  }

  lemma PlacesAreNumbers(e: Event, s: int32)
    ensures AllTextsValid(FromPart(e, s) + ScopePart(e, s))
  {
    TextsBoth(FromPart(e, s), ScopePart(e, s));
  }

  lemma HeadTexts(e: Event)
    ensures AllTextsValid(Head(e)) <==>
              && Utf8.Valid(e.action) && Utf8.Valid(e.actorIp) && Utf8.Valid(e.actorRole)
              && Utf8.Valid(e.actorUsername) && Utf8.Valid(CategoryName(e.category)) && Utf8.Valid(e.detailsJson)
              && Utf8.Valid(e.httpMethod) && Utf8.Valid(e.httpPath) && Utf8.Valid(e.requestId)
  {
    hide Utf8.Valid, CategoryName;
    var h := Head(e);
    if AllTextsValid(h) {
      assert TextValid(h[0]) && TextValid(h[1]) && TextValid(h[2]) && TextValid(h[4]) && TextValid(h[5]);
      assert TextValid(h[6]) && TextValid(h[8]) && TextValid(h[9]) && TextValid(h[11]);
    }
  }

  lemma LastTexts(e: Event)
    ensures AllTextsValid(Last(e)) <==>
              Utf8.Valid(e.summary) && Utf8.Valid(e.targetId) && Utf8.Valid(e.targetType)
  {
    hide Utf8.Valid;
    var l := Last(e);
    if AllTextsValid(l) {
      assert TextValid(l[0]) && TextValid(l[1]) && TextValid(l[2]);
    }
  }

  lemma CategoryIsText(c: Category)
    ensures Utf8.Valid(CategoryName(c))
  {
    hide Utf8.Valid;
    CategoryIsPlain(c);
    Utf8.PlainIsValid(CategoryName(c));
  }

  lemma CategoryIsPlain(c: Category)
    ensures forall i | 0 <= i < |CategoryName(c)| :: CategoryName(c)[i] as int < 0x80
  {
  }

  /** The bytes of a blob as they are appended to a std::string. */
  function AsChars(b: Blob): string {
    seq(|b|, i requires 0 <= i < |b| => b[i] as char)
  }

  function Message(prev: Blob, e: Event, scoped: int32): string {
    AsChars(prev) + Canonical(e, scoped)
  }

  /** What the signature of a row in format `scoped` speaks for: every field of the event,
      except the places its format does not know. */
  datatype Signed = Signed(format: int, event: Event)

  function SignedPart(e: Event, scoped: int32): Signed {
    if scoped >= 2 then Signed(2, e)
    else if scoped == 1 then Signed(1, e.(place := e.place.(fromObjectId := None, fromGroupId := None)))
    else Signed(0, e.(place := NOWHERE))
  }

  lemma OptInjective(a: Option<int>, b: Option<int>)
    requires Opt(a) == Opt(b)
    ensures a == b
  {
  }

  lemma CategoryNameInjective(a: Category, b: Category)
    requires CategoryName(a) == CategoryName(b)
    ensures a == b
  {
    CategoryNameRead(a);
    CategoryNameRead(b);
  }

  lemma MembersSigned(e: Event, s: int32, f: Event, t: int32)
    requires Members(e, s) == Members(f, t)
    ensures SignedPart(e, s) == SignedPart(f, t)
  {
    SplitMiddle(Head(e), FromPart(e, s) + ScopePart(e, s), Last(e),
                Head(f), FromPart(f, t) + ScopePart(f, t), Last(f));
    HeadSays(e, f);
    LastSays(e, f);
    PlacesSay(e, s, f, t);
  }

  lemma SplitMiddle<T>(a: seq<T>, x: seq<T>, c: seq<T>, b: seq<T>, y: seq<T>, d: seq<T>)
    requires |a| == |b| && |c| == |d|
    requires a + (x + c) == b + (y + d)
    ensures a == b && x == y && c == d
  {
    var s, t := a + (x + c), b + (y + d);
    assert s[..|a|] == a && t[..|b|] == b;
    assert s[|a|..] == x + c && t[|b|..] == y + d;
    assert (x + c)[..|x|] == x && (y + d)[..|y|] == y;
    assert (x + c)[|x|..] == c && (y + d)[|y|..] == d;
  }

  lemma HeadSays(e: Event, f: Event)
    requires Head(e) == Head(f)
    ensures e.action == f.action && e.actorIp == f.actorIp && e.actorRole == f.actorRole
    ensures e.actorUserId == f.actorUserId && e.actorUsername == f.actorUsername && e.category == f.category
    ensures e.detailsJson == f.detailsJson && e.elapsedMs == f.elapsedMs && e.httpMethod == f.httpMethod
    ensures e.httpPath == f.httpPath && e.httpStatus == f.httpStatus && e.requestId == f.requestId
  {
    var h, k := Head(e), Head(f);
    assert h[0] == k[0] && h[1] == k[1] && h[2] == k[2] && h[3] == k[3] && h[4] == k[4] && h[5] == k[5];
    assert h[6] == k[6] && h[7] == k[7] && h[8] == k[8] && h[9] == k[9] && h[10] == k[10] && h[11] == k[11];
    OptInjective(e.actorUserId, f.actorUserId);
    CategoryNameInjective(e.category, f.category);
  }

  lemma LastSays(e: Event, f: Event)
    requires Last(e) == Last(f)
    ensures e.summary == f.summary && e.targetId == f.targetId && e.targetType == f.targetType && e.ts == f.ts
  {
    var h, k := Last(e), Last(f);
    assert h[0] == k[0] && h[1] == k[1] && h[2] == k[2] && h[3] == k[3];
  }

  lemma PlacesSay(e: Event, s: int32, f: Event, t: int32)
    requires FromPart(e, s) + ScopePart(e, s) == FromPart(f, t) + ScopePart(f, t)
    ensures SignedPart(e, s).format == SignedPart(f, t).format
    ensures SignedPart(e, s).event.place == SignedPart(f, t).event.place
  {
    var m, n := FromPart(e, s) + ScopePart(e, s), FromPart(f, t) + ScopePart(f, t);
    if s >= 2 {
      assert m[0] == n[0] && m[1] == n[1] && m[2] == n[2] && m[3] == n[3];
    } else if s == 1 {
      assert m[0] == n[0] && m[1] == n[1];
    }
  }

  lemma SignedPartSuffices(e: Event, s: int32, f: Event, t: int32)
    requires SignedPart(e, s) == SignedPart(f, t)
    ensures Members(e, s) == Members(f, t)
  {
    assert Head(e) == Head(f) && Last(e) == Last(f);
    assert FromPart(e, s) == FromPart(f, t) && ScopePart(e, s) == ScopePart(f, t);
  }

  /** The signed message tells apart exactly the previous MAC, the format and the fields the
      format covers. Rows of different formats never sign the same message, and no bytes
      of a previous MAC can pass for a piece of the event. */
  lemma MessageSays(p: Blob, e: Event, s: int32, q: Blob, f: Event, t: int32)
    ensures Message(p, e, s) == Message(q, f, t) <==> p == q && SignedPart(e, s) == SignedPart(f, t)
  {
    if Message(p, e, s) == Message(q, f, t) {
      FlatJson.FramingOnce(AsChars(p), AsChars(q), Members(e, s), Members(f, t));
      MembersSigned(e, s, f, t);
      assert |AsChars(p)| == |AsChars(q)|;
      forall i | 0 <= i < |p| ensures p[i] == q[i] {
        assert AsChars(p)[i] == AsChars(q)[i];
      }
    }
    if p == q && SignedPart(e, s) == SignedPart(f, t) {
      SignedPartSuffices(e, s, f, t);
    }
  }

  // ---- rows as links -----------------------------------------------------------------

  /** How rows are signed and stored: the keyed MAC, the message an event is signed with, the
      columns it is stored in, the message the scan re-derives from stored columns, and which
      events come back from their columns as they were signed. */
  datatype Signer = Signer(hmac: Hmac, sign: (Blob, Event) -> string, write: Event -> Columns,
                           message: (Blob, Columns) -> string, legible: Event -> bool)

  /** The message a new event is signed with. */
  function SignText(prev: Blob, e: Event): string {
    Message(prev, e, CURRENT_FORMAT)
  }

  /** The message the scan re-derives from a stored row. */
  function RowText(prev: Blob, c: Columns): string {
    Message(prev, ReadEvent(c), ColInt(c.scoped))
  }

  function AuditSigner(h: Hmac): Signer {
    Signer(h, SignText, WriteColumns, RowText, NulFree)
  }

  /** The link as the database signed it. */
  function SignedLink(g: Signer, r: Row, e: Event): Link {
    Link(r.id, r.fingerprint, ColBlob(r.prevMac), r.mac, g.sign(ColBlob(r.prevMac), e))
  }

  function SignedLinks(g: Signer, rows: seq<Row>, events: seq<Event>): (s: seq<Link>)
    requires |events| == |rows|
    ensures |s| == |rows| && forall i | 0 <= i < |s| :: s[i] == SignedLink(g, rows[i], events[i])
  {
    seq(|rows|, i requires 0 <= i < |rows| => SignedLink(g, rows[i], events[i]))
  }

  /** The link as the scan reads it back. */
  function LinkOf(g: Signer, r: Row): Link {
    Link(r.id, r.fingerprint, ColBlob(r.prevMac), r.mac, g.message(ColBlob(r.prevMac), r.cols))
  }

  function Links(g: Signer, rows: seq<Row>): (s: seq<Link>)
    ensures |s| == |rows| && forall i | 0 <= i < |s| :: s[i] == LinkOf(g, rows[i])
  {
    seq(|rows|, i requires 0 <= i < |rows| => LinkOf(g, rows[i]))
  }

  lemma LinksPick(g: Signer, rows: seq<Row>, at: seq<nat>)
    requires forall j | 0 <= j < |at| :: at[j] < |rows|
    ensures Links(g, Pick(rows, at)) == Pick(Links(g, rows), at)
  {
  }

  /** The part of a stored row its MAC speaks for. */
  function ColumnsSigned(c: Columns): Signed {
    SignedPart(ReadEvent(c), ColInt(c.scoped))
  }

  lemma RowTextSays(p: Blob, c: Columns, q: Blob, d: Columns)
    ensures RowText(p, c) == RowText(q, d) <==> p == q && ColumnsSigned(c) == ColumnsSigned(d)
  {
    MessageSays(p, ReadEvent(c), ColInt(c.scoped), q, ReadEvent(d), ColInt(d.scoped));
  }

  /** An event is re-derived from its own row with the message it was signed with if and only
      if none of its texts holds a NUL: the MAC is over the whole text, the column keeps what
      is before the NUL. */
  lemma SignedIsRederived(prev: Blob, e: Event)
    ensures RowText(prev, WriteColumns(e)) == SignText(prev, e) <==> NulFree(e)
  {
    hide Message, WriteColumns, ReadEvent, NulFree, ColInt;
    ColumnsRead(e);
    MessageSays(prev, ReadEvent(WriteColumns(e)), CURRENT_FORMAT, prev, e, CURRENT_FORMAT);
  }

  /** A message is the bytes of the previous MAC and then the canonical text: of the event in
      format 2 when it is signed, of what the row is read back as, in the row's own format, when
      it is verified. */
  lemma MessageMeans(p: Blob, e: Event, c: Columns)
    ensures |SignText(p, e)| == |p| + |Canonical(e, 2)| && SignText(p, e)[|p|..] == Canonical(e, 2)
    ensures forall i | 0 <= i < |p| :: SignText(p, e)[i] as int == p[i]
    ensures var text := Canonical(ReadEvent(c), ColInt(c.scoped));
            |RowText(p, c)| == |p| + |text| && RowText(p, c)[|p|..] == text
    ensures forall i | 0 <= i < |p| :: RowText(p, c)[i] as int == p[i]
  {
    hide Canonical, ReadEvent, Message;
    MessageParts(p, e, 2);
    MessageParts(p, ReadEvent(c), ColInt(c.scoped));
  }

  lemma MessageParts(p: Blob, e: Event, s: int32)
    ensures |Message(p, e, s)| == |p| + |Canonical(e, s)| && Message(p, e, s)[|p|..] == Canonical(e, s)
    ensures forall i | 0 <= i < |p| :: Message(p, e, s)[i] as int == p[i]
  {
    hide Canonical;
    assert |AsChars(p)| == |p|;
  }

  /** A message signed or re-derived after this MAC. */
  ghost predicate Says(g: Signer, m: string, prev: Blob) {
    (exists e :: m == g.sign(prev, e)) || (exists c :: m == g.message(prev, c))
  }

  /** A message can be read back: it fixes the previous MAC in front of it. */
  ghost predicate FramedBy(g: Signer) {
    forall m, p, q :: Says(g, m, p) && Says(g, m, q) ==> p == q
  }

  /** Exactly the legible events are re-derived as they were signed. */
  ghost predicate LegibleBy(g: Signer) {
    forall prev, e :: g.message(prev, g.write(e)) == g.sign(prev, e) <==> g.legible(e)
  }

  ghost predicate Sound(g: Signer) {
    FramedBy(g) && LegibleBy(g)
  }

  lemma SaysMessage(h: Hmac, m: string, prev: Blob)
    requires Says(AuditSigner(h), m, prev)
    ensures exists e, s :: m == Message(prev, e, s)
  {
    hide Message;
    var g := AuditSigner(h);
    if exists e :: m == g.sign(prev, e) {
      var e :| m == g.sign(prev, e);
      assert m == Message(prev, e, CURRENT_FORMAT);
    } else {
      var c :| m == g.message(prev, c);
      assert m == Message(prev, ReadEvent(c), ColInt(c.scoped));
    }
  }

  /** A row's message fixes the previous MAC in front of it, and an event comes back as it was
      signed exactly when it holds no NUL. */
  lemma AuditSignerSound(h: Hmac)
    ensures Sound(AuditSigner(h))
  {
    hide Message, RowText, SignText, NulFree, WriteColumns;
    var g := AuditSigner(h);
    forall m, p, q | Says(g, m, p) && Says(g, m, q) ensures p == q {
      SaysMessage(h, m, p);
      SaysMessage(h, m, q);
      var e, s :| m == Message(p, e, s);
      var f, t :| m == Message(q, f, t);
      MessageSays(p, e, s, q, f, t);
    }
    forall prev, e ensures g.message(prev, g.write(e)) == g.sign(prev, e) <==> g.legible(e) {
      SignedIsRederived(prev, e);
    }
  }

  ghost predicate SaysAll(g: Signer, s: seq<Link>) {
    forall i | 0 <= i < |s| :: Says(g, s[i].message, s[i].prev)
  }

  lemma LinksSay(g: Signer, rows: seq<Row>, events: seq<Event>)
    requires |events| == |rows|
    ensures SaysAll(g, Links(g, rows)) && SaysAll(g, SignedLinks(g, rows, events))
  {
  }

  lemma LinksFramed(g: Signer, s: seq<Link>)
    requires FramedBy(g) && SaysAll(g, s)
    ensures Framed(s)
  {
    hide Says;
    forall i, j ensures FramedAt(s, i, j) {
      if 0 <= i < |s| && 0 <= j < |s| && s[i].message == s[j].message {
        assert Says(g, s[i].message, s[i].prev) && Says(g, s[i].message, s[j].prev);
      }
    }
  }

  // ---- what the verdict means --------------------------------------------------------

  /** The table row is the appended one: same key, same MACs, and every field its signature
      speaks for is the field of the event that was signed. */
  ghost predicate Intact(appended: Row, event: Event, stored: Row) {
    && appended.fingerprint == stored.fingerprint
    && appended.mac == stored.mac
    && ColBlob(appended.prevMac) == ColBlob(stored.prevMac)
    && ColumnsSigned(stored.cols) == SignedPart(event, CURRENT_FORMAT)
  }

  /** Soundness of the scan over rows: if it is clean and every MAC shown under the current
      key was issued for some appended row, then every run of current-key rows is a
      contiguous, in-order piece of the appended log that reads as the events signed, every
      signed field intact, or the rows at hand exhibit a collision of the MAC. */
  lemma CleanScanFaithful(h: Hmac, k: Key, log: seq<Row>, events: seq<Event>, table: seq<Row>, lo: nat, hi: nat)
    returns (base: nat)
    requires |events| == |log|
    requires Chained(h, SignedLinks(AuditSigner(h), log, events))
    requires Issued(k, SignedLinks(AuditSigner(h), log, events), Links(AuditSigner(h), table))
    requires Clean(h, k, Links(AuditSigner(h), table))
    requires lo < hi <= |table|
    requires forall j | lo <= j < hi :: table[j].fingerprint == k.fingerprint
    ensures || (base + (hi - lo) <= |log|
                && forall j | lo <= j < hi :: Intact(log[base + (j - lo)], events[base + (j - lo)], table[j]))
            || HasCollision(h, SignedLinks(AuditSigner(h), log, events) + Links(AuditSigner(h), table))
  {
    hide AuditSigner, Says;
    var g := AuditSigner(h);
    var signed, read := SignedLinks(g, log, events), Links(g, table);
    AuditSignerSound(h);
    LinksSay(g, log, events);
    LinksSayTable(g, table);
    LinksFramed(g, signed + read);
    base := ScanSound(h, k, signed, read, lo, hi);
    if IsSegment(signed, base, read, lo, hi) {
      forall j | lo <= j < hi ensures Intact(log[base + (j - lo)], events[base + (j - lo)], table[j]) {
        assert Same(signed[base + (j - lo)], read[j]);
        SameIsIntact(h, log[base + (j - lo)], events[base + (j - lo)], table[j]);
      }
    }
  }

  lemma LinksSayTable(g: Signer, table: seq<Row>)
    ensures SaysAll(g, Links(g, table))
  {
  }

  lemma SameIsIntact(h: Hmac, a: Row, e: Event, b: Row)
    requires Same(SignedLink(AuditSigner(h), a, e), LinkOf(AuditSigner(h), b))
    ensures Intact(a, e, b)
  {
    hide Message;
    MessageSays(ColBlob(a.prevMac), e, CURRENT_FORMAT, ColBlob(b.prevMac), ReadEvent(b.cols), ColInt(b.cols.scoped));
  }

  /** What the signature does not cover: an edit of one row leaves every verdict as it was
      if it keeps the MAC columns and the signed part of the event as read. */
  lemma UnsignedEdit(h: Hmac, rows: seq<Row>, i: nat, cols: Columns, legacy: bool)
    requires i < |rows|
    requires ColumnsSigned(cols) == ColumnsSigned(rows[i].cols)
    ensures Links(AuditSigner(h), rows[i := rows[i].(cols := cols, legacy := legacy)]) == Links(AuditSigner(h), rows)
  {
    RowTextSays(ColBlob(rows[i].prevMac), cols, ColBlob(rows[i].prevMac), rows[i].cols);
  }

  /** The category column is protected only up to how it reads: two texts are told apart by
      the scan exactly when they read as different categories. */
  lemma CategoryTextProtected(prev: Blob, c: Columns, text: string)
    ensures RowText(prev, c.(category := text)) == RowText(prev, c)
            <==> ReadCategory(text) == ReadCategory(c.category)
  {
    RowTextSays(prev, c.(category := text), prev, c);
    var e := ReadEvent(c);
    assert ReadEvent(c.(category := text)) == e.(category := ReadCategory(text));
    RecategorisedSigned(e, ReadCategory(text), ColInt(c.scoped));
  }

  lemma RecategorisedSigned(e: Event, c: Category, scoped: int32)
    ensures SignedPart(e.(category := c), scoped) == SignedPart(e, scoped) <==> c == e.category
  {
  }
}
