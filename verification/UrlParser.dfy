/**
 http_parser_parse_url and http_parse_host: when a URL is accepted, its fields are consecutive spans of the text, and
 every byte outside them is a delimiter.
*/
module UrlParser {
  import opened Chars
  import opened HttpTypes
  import opened HttpStep
  import opened HttpLengths
  import opened HttpStartLine

  datatype Field = SCHEMA | HOST | PORT | PATH | QUERY | FRAGMENT | USERINFO

  datatype Span = Span(off: nat, len: nat)

  /** The fields whose bit is set in field_set. */
  type Fields = map<Field, Span>

  function LenOf(f: Fields, k: Field): nat { if k in f then f[k].len else 0 }

  function Part(buf: string, s: Span): string
    requires s.off + s.len <= |buf|
  {
    buf[s.off..s.off + s.len]
  }

  // ---------- the first pass ----------

  /** Where the authority begins, and where it ends while it is one span. */
  function AuthorityAt(f: Fields): nat { if SCHEMA in f then f[SCHEMA].len + 3 else 0 }

  function PathAt(f: Fields): nat { AuthorityAt(f) + LenOf(f, HOST) }

  /** Behind a path that begins at `path`: the question mark, the hash marks and the end. */
  function MarkAt(path: nat, f: Fields): nat { path + LenOf(f, PATH) }

  function HashAt(path: nat, f: Fields, query: bool): nat {
    MarkAt(path, f) + (if query then 1 + LenOf(f, QUERY) else 0)
  }

  /**
   A path, a question mark and a query, a number of hash marks and a fragment, each of which may be missing, follow one
   another from `path` to `end`.
  */
  predicate TailOk(buf: string, path: nat, end: nat, f: Fields, query: bool, hashes: nat) {
    && end <= |buf| && SpanAt(f, PATH, path) && SpanAt(f, QUERY, MarkAt(path, f) + 1)
    && SpanAt(f, FRAGMENT, HashAt(path, f, query) + hashes)
    && HashAt(path, f, query) + hashes + LenOf(f, FRAGMENT) == end
    && (PATH in f ==> buf[path] == '/' || buf[path] == '*')
    && (if query then buf[MarkAt(path, f)] == '?' else QUERY !in f)
    && (FRAGMENT in f ==> hashes > 0)
    && (forall i :: HashAt(path, f, query) <= i < HashAt(path, f, query) + hashes ==> buf[i] == '#')
  }

  predicate SchemaOk(buf: string, f: Fields) {
    SCHEMA in f ==> f[SCHEMA].off == 0 && f[SCHEMA].len > 0 && f[SCHEMA].len + 3 <= |buf|
                    && buf[f[SCHEMA].len..f[SCHEMA].len + 3] == "://"
  }

  predicate SpanAt(f: Fields, k: Field, off: nat) { k in f ==> f[k].off == off && f[k].len > 0 }

  /** The first pass over buf[..p] behind the schema: the whole authority is one span under HOST. */
  predicate Tiled(buf: string, p: nat, f: Fields, query: bool, hashes: nat) {
    && SchemaOk(buf, f) && PORT !in f && USERINFO !in f && SpanAt(f, HOST, AuthorityAt(f))
    && TailOk(buf, PathAt(f), p, f, query, hashes)
  }

  predicate OnlySchema(f: Fields, len: nat) { f == map[SCHEMA := Span(0, len)] && len > 0 }

  predicate Scanned(s: State, buf: string, p: nat, f: Fields, query: bool, hashes: nat) {
    p <= |buf| &&
    match s
    case ReqSpacesBeforeUrl => p == 0 && f == map[] && !query && hashes == 0
    case ReqSchema => OnlySchema(f, p) && !query && hashes == 0
    case ReqSchemaSlash => p > 1 && OnlySchema(f, p - 1) && buf[p - 1] == ':' && !query && hashes == 0
    case ReqSchemaSlashSlash => p > 2 && OnlySchema(f, p - 2) && buf[p - 2] == ':' && buf[p - 1] == '/' && !query
        && hashes == 0
    case ReqServerStart => Tiled(buf, p, f, query, hashes) && HOST !in f && PATH !in f && !query && hashes == 0
    case ReqServer => Tiled(buf, p, f, query, hashes) && HOST in f && PATH !in f && !query && hashes == 0
    case ReqServerWithAt => Tiled(buf, p, f, query, hashes) && HOST in f && PATH !in f && !query && hashes == 0
    case ReqPath => Tiled(buf, p, f, query, hashes) && PATH in f && !query && hashes == 0
    case ReqQueryStringStart => Tiled(buf, p, f, query, hashes) && query && QUERY !in f && hashes == 0
    case ReqQueryString => Tiled(buf, p, f, query, hashes) && QUERY in f && hashes == 0
    case ReqFragmentStart => Tiled(buf, p, f, query, hashes) && FRAGMENT !in f && hashes > 0
    case ReqFragment => Tiled(buf, p, f, query, hashes) && FRAGMENT in f
    case _ => false
  }

  /** The field that the byte which led to state s belongs to; none for a delimiter. */
  function FieldOf(s: State): Option<Field> {
    match s
    case ReqSchema => Some(SCHEMA)
    case ReqServer => Some(HOST)
    case ReqServerWithAt => Some(HOST)
    case ReqPath => Some(PATH)
    case ReqQueryString => Some(QUERY)
    case ReqFragment => Some(FRAGMENT)
    case _ => None
  }

  /** One more byte for field k, at p. */
  function Grown(f: Fields, k: Field, same: bool, p: nat): Fields
    requires same ==> k in f
  {
    if same then f[k := f[k].(len := f[k].len + 1)] else f[k := Span(p, 1)]
  }

  /** The last field is still open in state s. */
  predicate LastOk(s: State, last: Option<Field>, f: Fields) {
    && (FieldOf(s).Some? ==> last == FieldOf(s))
    && (last.Some? ==> last.value in f)
    && match s
       case ReqSpacesBeforeUrl => last == None
       case ReqSchemaSlash => last == Some(SCHEMA)
       case ReqSchemaSlashSlash => last == Some(SCHEMA)
       case ReqServerStart => last == None || last == Some(SCHEMA)
       case ReqQueryStringStart => last != Some(QUERY) && last != Some(FRAGMENT)
       case ReqFragmentStart => last != Some(FRAGMENT)
       case _ => true
  }

  /** What the loop body makes of byte p in state s. */
  predicate Advances(s: State, buf: string, p: nat, f: Fields, query: bool, hashes: nat, last: Option<Field>)
    requires p < |buf|
  {
    var t := ParseUrlChar(s, buf[p]);
    var k := FieldOf(t);
    !t.Dead? && (k.Some? && last == k ==> k.value in f) ==>
      var g := if k.Some? then Grown(f, k.value, last == k, p) else f;
      Scanned(t, buf, p + 1, g, query || t.ReqQueryStringStart?, if t.ReqFragmentStart? then hashes + 1 else hashes)
      && LastOk(t, if k.Some? then k else last, g)
  }

  /** Where a byte of an authority or of what follows it may lead. */
  lemma TailStates(s: State, ch: char)
    ensures var t := ParseUrlChar(s, ch);
      && (s.ReqServerStart? || s.ReqServer? || s.ReqServerWithAt? ==>
            t.Dead? || t.ReqServer? || (t.ReqServerWithAt? && ch == '@') || (t.ReqPath? && ch == '/')
              || (t.ReqQueryStringStart? && ch == '?'))
      && (s.ReqPath? ==>
            t.Dead? || t.ReqPath? || (t.ReqQueryStringStart? && ch == '?') || (t.ReqFragmentStart? && ch == '#'))
      && (s.ReqQueryStringStart? || s.ReqQueryString? ==>
            t.Dead? || t.ReqQueryString? || (t.ReqFragmentStart? && ch == '#'))
      && (s.ReqFragmentStart? ==> t.Dead? || t.ReqFragment? || (t.ReqFragmentStart? && ch == '#'))
      && (s.ReqFragment? ==> t.Dead? || t.ReqFragment?)
  {
    hide IsUrlChar, IsUserinfoChar, IsAlpha;
  }

  // One more byte of each part of the layout.

  lemma GrowHost(buf: string, p: nat, f: Fields, same: bool)
    requires p < |buf| && Tiled(buf, p, f, false, 0) && PATH !in f && (same <==> HOST in f)
    ensures Tiled(buf, p + 1, Grown(f, HOST, same, p), false, 0)
  {
    hide SchemaOk;
    SameSchema(buf, f, Grown(f, HOST, same, p));
  }

  lemma GrowPath(buf: string, p: nat, f: Fields, same: bool)
    requires p < |buf| && Tiled(buf, p, f, false, 0) && (same <==> PATH in f) && (same || buf[p] == '/')
    ensures Tiled(buf, p + 1, Grown(f, PATH, same, p), false, 0)
  {
    hide SchemaOk;
    SameSchema(buf, f, Grown(f, PATH, same, p));
  }

  lemma GrowQuery(buf: string, p: nat, f: Fields, same: bool)
    requires p < |buf| && Tiled(buf, p, f, true, 0) && (same <==> QUERY in f)
    ensures Tiled(buf, p + 1, Grown(f, QUERY, same, p), true, 0)
  {
    hide SchemaOk;
    SameSchema(buf, f, Grown(f, QUERY, same, p));
  }

  lemma GrowFragment(buf: string, p: nat, f: Fields, query: bool, hashes: nat, same: bool)
    requires p < |buf| && Tiled(buf, p, f, query, hashes) && hashes > 0 && (same <==> FRAGMENT in f)
    ensures Tiled(buf, p + 1, Grown(f, FRAGMENT, same, p), query, hashes)
  {
    hide SchemaOk;
    SameSchema(buf, f, Grown(f, FRAGMENT, same, p));
  }

  lemma AddMark(buf: string, p: nat, f: Fields)
    requires p < |buf| && Tiled(buf, p, f, false, 0) && buf[p] == '?'
    ensures Tiled(buf, p + 1, f, true, 0)
  {
    hide SchemaOk;
  }

  lemma AddHash(buf: string, p: nat, f: Fields, query: bool, hashes: nat)
    requires p < |buf| && Tiled(buf, p, f, query, hashes) && FRAGMENT !in f && buf[p] == '#'
    ensures Tiled(buf, p + 1, f, query, hashes + 1)
  {
    hide SchemaOk;
  }

  lemma SameSchema(buf: string, f: Fields, g: Fields)
    requires (SCHEMA in f <==> SCHEMA in g) && (SCHEMA in f ==> f[SCHEMA] == g[SCHEMA])
    ensures SchemaOk(buf, f) <==> SchemaOk(buf, g)
  {
  }

  lemma NoFragment(buf: string, p: nat, f: Fields, query: bool, hashes: nat)
    requires Tiled(buf, p, f, query, hashes)
    ensures (hashes == 0 ==> FRAGMENT !in f) && (!query ==> QUERY !in f)
  {
    hide SchemaOk;
  }

  lemma SchemaByte(s: State, buf: string, p: nat, f: Fields, query: bool, hashes: nat, last: Option<Field>)
    requires p < |buf| && Scanned(s, buf, p, f, query, hashes) && LastOk(s, last, f)
    requires s.ReqSpacesBeforeUrl? || s.ReqSchema? || s.ReqSchemaSlash? || s.ReqSchemaSlashSlash?
    ensures Advances(s, buf, p, f, query, hashes, last)
  {
    hide IsUrlChar, IsUserinfoChar, IsAlpha;
    if s.ReqSchemaSlashSlash? {
      assert buf[p] == '/' ==> buf[p - 2..p + 1] == "://";
    }
  }

  lemma ServerByte(s: State, buf: string, p: nat, f: Fields, query: bool, hashes: nat, last: Option<Field>)
    requires p < |buf| && Scanned(s, buf, p, f, query, hashes) && LastOk(s, last, f)
    requires s.ReqServerStart? || s.ReqServer? || s.ReqServerWithAt?
    ensures Advances(s, buf, p, f, query, hashes, last)
  {
    hide ParseUrlChar, Tiled;
    TailStates(s, buf[p]);
    NoFragment(buf, p, f, query, hashes);
    GrowHost(buf, p, f, !s.ReqServerStart?);
    if buf[p] == '/' { GrowPath(buf, p, f, false); }
    if buf[p] == '?' { AddMark(buf, p, f); }
  }

  lemma PathByte(s: State, buf: string, p: nat, f: Fields, query: bool, hashes: nat, last: Option<Field>)
    requires p < |buf| && Scanned(s, buf, p, f, query, hashes) && LastOk(s, last, f)
    requires s.ReqPath?
    ensures Advances(s, buf, p, f, query, hashes, last)
  {
    hide ParseUrlChar, Tiled;
    TailStates(s, buf[p]);
    NoFragment(buf, p, f, query, hashes);
    GrowPath(buf, p, f, true);
    if buf[p] == '?' { AddMark(buf, p, f); }
    if buf[p] == '#' { AddHash(buf, p, f, query, hashes); }
  }

  lemma QueryByte(s: State, buf: string, p: nat, f: Fields, query: bool, hashes: nat, last: Option<Field>)
    requires p < |buf| && Scanned(s, buf, p, f, query, hashes) && LastOk(s, last, f)
    requires s.ReqQueryStringStart? || s.ReqQueryString?
    ensures Advances(s, buf, p, f, query, hashes, last)
  {
    hide ParseUrlChar, Tiled;
    TailStates(s, buf[p]);
    NoFragment(buf, p, f, query, hashes);
    assert query by { AskedFor(buf, p, f, query, hashes); }
    GrowQuery(buf, p, f, s.ReqQueryString?);
    if buf[p] == '#' { AddHash(buf, p, f, query, hashes); }
  }

  lemma HashByte(s: State, buf: string, p: nat, f: Fields, query: bool, hashes: nat, last: Option<Field>)
    requires p < |buf| && Scanned(s, buf, p, f, query, hashes) && LastOk(s, last, f)
    requires s.ReqFragmentStart?
    ensures Advances(s, buf, p, f, query, hashes, last)
  {
    hide ParseUrlChar, Tiled;
    TailStates(s, buf[p]);
    NoFragment(buf, p, f, query, hashes);
    GrowFragment(buf, p, f, query, hashes, false);
    if buf[p] == '#' { AddHash(buf, p, f, query, hashes); }
  }

  lemma FragmentByte(s: State, buf: string, p: nat, f: Fields, query: bool, hashes: nat, last: Option<Field>)
    requires p < |buf| && Scanned(s, buf, p, f, query, hashes) && LastOk(s, last, f)
    requires s.ReqFragment?
    ensures Advances(s, buf, p, f, query, hashes, last)
  {
    hide ParseUrlChar, Tiled;
    TailStates(s, buf[p]);
    NoFragment(buf, p, f, query, hashes);
    HashFirst(buf, p, f, query, hashes);
    GrowFragment(buf, p, f, query, hashes, true);
  }

  lemma AskedFor(buf: string, p: nat, f: Fields, query: bool, hashes: nat)
    requires Tiled(buf, p, f, query, hashes) && (query || QUERY in f)
    ensures query
  {
  }

  lemma HashFirst(buf: string, p: nat, f: Fields, query: bool, hashes: nat)
    requires Tiled(buf, p, f, query, hashes) && FRAGMENT in f
    ensures hashes > 0
  {
  }

  lemma NextByte(s: State, buf: string, p: nat, f: Fields, query: bool, hashes: nat, last: Option<Field>)
    requires p < |buf| && Scanned(s, buf, p, f, query, hashes) && LastOk(s, last, f)
    ensures Advances(s, buf, p, f, query, hashes, last)
    ensures var k := FieldOf(ParseUrlChar(s, buf[p])); k.Some? && last == k ==> k.value in f
  {
    hide Advances, Tiled, ParseUrlChar;
    match s
    case ReqSpacesBeforeUrl => SchemaByte(s, buf, p, f, query, hashes, last);
    case ReqSchema => SchemaByte(s, buf, p, f, query, hashes, last);
    case ReqSchemaSlash => SchemaByte(s, buf, p, f, query, hashes, last);
    case ReqSchemaSlashSlash => SchemaByte(s, buf, p, f, query, hashes, last);
    case ReqServerStart => ServerByte(s, buf, p, f, query, hashes, last);
    case ReqServer => ServerByte(s, buf, p, f, query, hashes, last);
    case ReqServerWithAt => ServerByte(s, buf, p, f, query, hashes, last);
    case ReqPath => PathByte(s, buf, p, f, query, hashes, last);
    case ReqQueryStringStart => QueryByte(s, buf, p, f, query, hashes, last);
    case ReqQueryString => QueryByte(s, buf, p, f, query, hashes, last);
    case ReqFragmentStart => HashByte(s, buf, p, f, query, hashes, last);
    case ReqFragment => FragmentByte(s, buf, p, f, query, hashes, last);
    case _ =>
  }
  // ---------- the second pass ----------

  datatype HostState =
    | HostDead | UserinfoStart | Userinfo | HostStart | V6Start | Host | V6 | V6End | ZoneStart | Zone | PortStart
      | Port

  /** http_parse_host_char */
  function ParseHostChar(s: HostState, ch: char): HostState {
    match s
    case UserinfoStart => UserinfoChar(ch)
    case Userinfo => UserinfoChar(ch)
    case HostStart => if ch == '[' then V6Start else if IsHostChar(ch) then Host else HostDead
    case Host => if IsHostChar(ch) then Host else if ch == ':' then PortStart else HostDead
    case V6End => if ch == ':' then PortStart else HostDead
    case V6 => if ch == ']' then V6End else if IsHex(ch) || ch == ':' || ch == '.' then V6 else if ch == '%'
        then ZoneStart else HostDead
    case V6Start => if IsHex(ch) || ch == ':' || ch == '.' then V6 else HostDead
    case Zone => if ch == ']' then V6End else if IsZoneChar(ch) then Zone else HostDead
    case ZoneStart => if IsZoneChar(ch) then Zone else HostDead
    case Port => if IsNum(ch) then Port else HostDead
    case PortStart => if IsNum(ch) then Port else HostDead
    case HostDead => HostDead
  }

  function UserinfoChar(ch: char): HostState {
    if ch == '@' then HostStart else if IsUserinfoChar(ch) then Userinfo else HostDead
  }

  predicate IsZoneChar(ch: char) { IsAlphaNum(ch) || ch == '%' || ch == '.' || ch == '-' || ch == '_' || ch == '~' }

  /** The states in which an authority may end. */
  predicate MayEnd(s: HostState) { s.Host? || s.V6End? || s.Port? }

  function HostFold(s: HostState, t: string): HostState {
    if t == "" then s else ParseHostChar(HostFold(s, t[..|t| - 1]), t[|t| - 1])
  }

  /** An authority that begins at lo: the end of the user information, and of the host with its brackets. */
  function UserEnd(lo: nat, f: Fields, at: bool): nat { lo + (if at then LenOf(f, USERINFO) + 1 else 0) }

  function HostEnd(lo: nat, f: Fields, at: bool, v6: bool): nat {
    UserEnd(lo, f, at) + LenOf(f, HOST) + (if v6 then 2 else 0)
  }

  predicate UserOk(buf: string, lo: nat, f: Fields, at: bool) {
    && UserEnd(lo, f, at) <= |buf| && SpanAt(f, USERINFO, lo)
    && (if at then buf[UserEnd(lo, f, at) - 1] == '@' else USERINFO !in f)
  }

  predicate HostOk(buf: string, lo: nat, f: Fields, at: bool, v6: bool) {
    && UserOk(buf, lo, f, at) && HOST in f && f[HOST].len > 0 && HostEnd(lo, f, at, v6) <= |buf|
    && f[HOST].off == UserEnd(lo, f, at) + (if v6 then 1 else 0)
    && (v6 ==> buf[UserEnd(lo, f, at)] == '[' && buf[HostEnd(lo, f, at, v6) - 1] == ']')
  }

  predicate PortOk(buf: string, at: nat, f: Fields) {
    PORT in f ==>
      f[PORT].len > 0 && f[PORT].off == at + 1 && f[PORT].off + f[PORT].len <= |buf| && buf[at] == ':'
      && forall i :: f[PORT].off <= i < f[PORT].off + f[PORT].len ==> IsNum(buf[i])
  }

  /** The second pass over buf[lo..i]. */
  predicate Parted(s: HostState, buf: string, lo: nat, i: nat, f: Fields, at: bool, v6: bool) {
    && lo <= i <= |buf| && HOST in f && (PORT in f <==> s.Port?)
    && match s
       case HostDead => false
       case UserinfoStart => at && !v6 && i == lo && USERINFO !in f && f[HOST].len == 0
       case Userinfo => at && !v6 && USERINFO in f && f[USERINFO] == Span(lo, i - lo) && i > lo && f[HOST].len == 0
       case HostStart => UserOk(buf, lo, f, at) && !v6 && i == UserEnd(lo, f, at) && f[HOST].len == 0
       case V6Start => UserOk(buf, lo, f, at) && v6 && i == UserEnd(lo, f, at) + 1 && buf[i - 1] == '['
           && f[HOST].len == 0
       case Host => HostOk(buf, lo, f, at, v6) && !v6 && i == HostEnd(lo, f, at, v6)
       case V6 => OpenV6(buf, lo, i, f, at, v6)
       case ZoneStart => OpenV6(buf, lo, i, f, at, v6)
       case Zone => OpenV6(buf, lo, i, f, at, v6)
       case V6End => HostOk(buf, lo, f, at, v6) && v6 && i == HostEnd(lo, f, at, v6)
       case PortStart => HostOk(buf, lo, f, at, v6) && i == HostEnd(lo, f, at, v6) + 1 && buf[i - 1] == ':'
       case Port => HostOk(buf, lo, f, at, v6) && PortOk(buf, HostEnd(lo, f, at, v6), f)
                    && i == HostEnd(lo, f, at, v6) + 1 + f[PORT].len
  }

  /** Inside the brackets. */
  predicate OpenV6(buf: string, lo: nat, i: nat, f: Fields, at: bool, v6: bool)
    requires HOST in f && i <= |buf|
  {
    && UserOk(buf, lo, f, at) && v6 && UserEnd(lo, f, at) + 1 + f[HOST].len == i && f[HOST].len > 0
    && f[HOST].off == UserEnd(lo, f, at) + 1 && buf[UserEnd(lo, f, at)] == '['
  }

  /** The spans after a byte at i led from state s to state t. */
  function HostGrown(s: HostState, t: HostState, f: Fields, i: nat): Fields
    requires HOST in f && (s.Port? ==> PORT in f) && (s.Userinfo? ==> USERINFO in f)
  {
    match t
    case Host => f[HOST := Span(if s.Host? then f[HOST].off else i, f[HOST].len + 1)]
    case V6 => f[HOST := Span(if s.V6? then f[HOST].off else i, f[HOST].len + 1)]
    case ZoneStart => f[HOST := f[HOST].(len := f[HOST].len + 1)]
    case Zone => f[HOST := f[HOST].(len := f[HOST].len + 1)]
    case Port => f[PORT := if s.Port? then f[PORT].(len := f[PORT].len + 1) else Span(i, 1)]
    case Userinfo => f[USERINFO := if s.Userinfo? then f[USERINFO].(len := f[USERINFO].len + 1) else Span(i, 1)]
    case _ => f
  }

  predicate HostAdvances(s: HostState, buf: string, lo: nat, i: nat, f: Fields, at: bool, v6: bool)
    requires i < |buf| && HOST in f && (s.Port? ==> PORT in f) && (s.Userinfo? ==> USERINFO in f)
  {
    var t := ParseHostChar(s, buf[i]);
    !t.HostDead? ==> Parted(t, buf, lo, i + 1, HostGrown(s, t, f, i), at, v6 || t.V6Start?)
  }

  lemma HostByte(s: HostState, buf: string, lo: nat, i: nat, f: Fields, at: bool, v6: bool)
    requires Parted(s, buf, lo, i, f, at, v6) && i < |buf|
    requires s.UserinfoStart? || s.Userinfo? || s.HostStart? || s.Host?
    ensures HostAdvances(s, buf, lo, i, f, at, v6)
  {
    hide IsHostChar, IsUserinfoChar, IsHex, IsZoneChar, IsNum;
  }

  lemma V6Byte(s: HostState, buf: string, lo: nat, i: nat, f: Fields, at: bool, v6: bool)
    requires Parted(s, buf, lo, i, f, at, v6) && i < |buf|
    requires s.V6Start? || s.V6? || s.ZoneStart? || s.Zone?
    ensures HostAdvances(s, buf, lo, i, f, at, v6)
  {
    hide IsHostChar, IsUserinfoChar, IsHex, IsZoneChar, IsNum;
  }

  lemma PortByte(s: HostState, buf: string, lo: nat, i: nat, f: Fields, at: bool, v6: bool)
    requires Parted(s, buf, lo, i, f, at, v6) && i < |buf|
    requires s.V6End? || s.PortStart? || s.Port?
    ensures HostAdvances(s, buf, lo, i, f, at, v6)
  {
    hide IsHostChar, IsUserinfoChar, IsHex, IsZoneChar, IsNum;
  }

  lemma NextHostByte(s: HostState, buf: string, lo: nat, i: nat, f: Fields, at: bool, v6: bool)
    requires Parted(s, buf, lo, i, f, at, v6) && i < |buf|
    ensures (s.Port? ==> PORT in f) && (s.Userinfo? ==> USERINFO in f) && HostAdvances(s, buf, lo, i, f, at, v6)
  {
    hide HostAdvances, HostOk, UserOk, PortOk, OpenV6;
    match s
    case V6Start => V6Byte(s, buf, lo, i, f, at, v6);
    case V6 => V6Byte(s, buf, lo, i, f, at, v6);
    case ZoneStart => V6Byte(s, buf, lo, i, f, at, v6);
    case Zone => V6Byte(s, buf, lo, i, f, at, v6);
    case V6End => PortByte(s, buf, lo, i, f, at, v6);
    case PortStart => PortByte(s, buf, lo, i, f, at, v6);
    case Port => PortByte(s, buf, lo, i, f, at, v6);
    case HostDead =>
    case _ => HostByte(s, buf, lo, i, f, at, v6);
  }
  // ---------- accepted URLs ----------

  /** Where the authority ends, once it has been parted. */
  function AuthorityEnd(f: Fields, at: bool, v6: bool): nat {
    if HOST in f then HostEnd(AuthorityAt(f), f, at, v6) + (if PORT in f then 1 + f[PORT].len else 0)
        else AuthorityAt(f)
  }

  /**
   The whole text, from left to right: a schema with "://", user information with '@', a host with or without brackets,
   a port with ':', a path, a query with '?', and a fragment with its hash marks, each of which may be missing.
  */
  predicate Laid(buf: string, f: Fields, at: bool, v6: bool, query: bool, hashes: nat) {
    && SchemaOk(buf, f) && (SCHEMA in f ==> HOST in f)
    && (if HOST in f then
          var lo := AuthorityAt(f);
          HostOk(buf, lo, f, at, v6) && PortOk(buf, HostEnd(lo, f, at, v6), f)
        else !at && !v6 && PORT !in f && USERINFO !in f)
    && TailOk(buf, AuthorityEnd(f, at, v6), |buf|, f, query, hashes)
  }

  lemma StartScanned(buf: string, isConnect: bool)
    ensures Scanned(StartOf(isConnect), buf, 0, map[], false, 0) && LastOk(StartOf(isConnect), None, map[])
    ensures UrlFold(StartOf(isConnect), buf[..0]) == StartOf(isConnect) && !AtIn(buf, map[])
  {
  }

  lemma AdvancesTo(s: State, buf: string, p: nat, f: Fields, query: bool, hashes: nat, last: Option<Field>)
    requires p < |buf| && Advances(s, buf, p, f, query, hashes, last)
    requires var k := FieldOf(ParseUrlChar(s, buf[p])); k.Some? && last == k ==> k.value in f
    ensures var t := ParseUrlChar(s, buf[p]);
      var k := FieldOf(t);
      !t.Dead? ==>
        var g := if k.Some? then Grown(f, k.value, last == k, p) else f;
        Scanned(t, buf, p + 1, g, query || t.ReqQueryStringStart?, if t.ReqFragmentStart? then hashes + 1 else hashes)
        && LastOk(t, if k.Some? then k else last, g)
  {
    hide ParseUrlChar, Scanned, LastOk, Grown;
  }

  lemma Alive(s: State, buf: string, p: nat, f: Fields, query: bool, hashes: nat)
    requires Scanned(s, buf, p, f, query, hashes)
    ensures !s.Dead? && PORT !in f && USERINFO !in f && SchemaBehind(f, s)
    ensures s.ReqSpacesBeforeUrl? ==> f == map[] && p == 0
  {
  }

  /** Before the authority begins there is only a schema. */
  predicate SchemaBehind(f: Fields, s: State) {
    (s.ReqSchema? || s.ReqSchemaSlash? || s.ReqSchemaSlashSlash?) ==> SCHEMA in f && HOST !in f
  }

  function StartOf(isConnect: bool): State { if isConnect then ReqServerStart else ReqSpacesBeforeUrl }

  function HostStartOf(at: bool): HostState { if at then UserinfoStart else HostStart }

  /** The authority of the first pass holds an at sign. */
  predicate AtIn(buf: string, f: Fields) {
    HOST in f && f[HOST].off + f[HOST].len <= |buf| && '@' in Part(buf, f[HOST])
  }

  lemma AtStep(s: State, buf: string, p: nat, f: Fields, query: bool, hashes: nat, last: Option<Field>)
    requires p < |buf| && Scanned(s, buf, p, f, query, hashes) && LastOk(s, last, f)
    requires var k := FieldOf(ParseUrlChar(s, buf[p])); k.Some? && last == k ==> k.value in f
    ensures var t := ParseUrlChar(s, buf[p]);
      var k := FieldOf(t);
      !t.Dead? ==>
        var g := if k.Some? then Grown(f, k.value, last == k, p) else f;
        AtIn(buf, g) <==> AtIn(buf, f) || t.ReqServerWithAt?
  {
    AtChar(s, buf[p]);
    OpenHost(s, buf, p, f, query, hashes, last);
    hide IsUrlChar, IsUserinfoChar, IsAlpha, Scanned, LastOk, ParseUrlChar, AtIn, Grown;
    var k := FieldOf(ParseUrlChar(s, buf[p]));
    if k == Some(HOST) {
      GrownHost(buf, f, last == k, p);
      if last != k { NoHost(buf, f); }
    } else if k.Some? {
      GrownOther(buf, f, k.value, last == k, p);
    }
  }

  lemma NoHost(buf: string, f: Fields)
    requires HOST !in f
    ensures !AtIn(buf, f)
  {
  }

  lemma GrownHost(buf: string, f: Fields, same: bool, p: nat)
    requires p < |buf| && (same ==> HOST in f && f[HOST].off + f[HOST].len == p)
    ensures AtIn(buf, Grown(f, HOST, same, p)) <==> (same && AtIn(buf, f)) || buf[p] == '@'
  {
    if same {
      var lo := f[HOST].off;
      assert buf[lo..p + 1] == buf[lo..p] + [buf[p]];
    } else {
      assert buf[p..p + 1] == [buf[p]];
    }
  }

  lemma GrownOther(buf: string, f: Fields, k: Field, same: bool, p: nat)
    requires k != HOST && (same ==> k in f)
    ensures AtIn(buf, Grown(f, k, same, p)) <==> AtIn(buf, f)
  {
  }

  /** In the middle of an authority, its span ends at p. */
  lemma OpenHost(s: State, buf: string, p: nat, f: Fields, query: bool, hashes: nat, last: Option<Field>)
    requires Scanned(s, buf, p, f, query, hashes) && LastOk(s, last, f)
    ensures s.ReqServerStart? ==> HOST !in f && last != Some(HOST)
    ensures s.ReqServer? || s.ReqServerWithAt? ==> HOST in f && f[HOST].off + f[HOST].len == p && last == Some(HOST)
  {
  }

  lemma AtChar(s: State, ch: char)
    ensures var t := ParseUrlChar(s, ch);
      t.ReqServer? || t.ReqServerWithAt? ==>
        (t.ReqServerWithAt? <==> ch == '@') && (s.ReqServerStart? || s.ReqServer? || s.ReqServerWithAt?)
  {
    hide IsUrlChar, IsUserinfoChar, IsAlpha;
  }

  lemma {:induction false} UrlFoldSnoc(s: State, t: string, i: nat)
    requires i < |t|
    ensures UrlFold(s, t[..i + 1]) == ParseUrlChar(UrlFold(s, t[..i]), t[i])
    decreases i
  {
    hide ParseUrlChar;
    if i > 0 {
      UrlFoldSnoc(ParseUrlChar(s, t[0]), t[1..], i - 1);
      assert t[..i + 1][1..] == t[1..][..i] && t[..i][1..] == t[1..][..i - 1];
    } else {
      assert t[..1][1..] == "" && t[..0] == "";
    }
  }

  lemma UrlDead(s: State, t: string, i: nat)
    requires i <= |t| && UrlFold(s, t[..i]).Dead?
    ensures UrlFold(s, t).Dead?
    decreases |t| - i
  {
    hide ParseUrlChar;
    if i < |t| {
      UrlFoldSnoc(s, t, i);
      DeadByte(t[i]);
      UrlDead(s, t, i + 1);
    } else {
      assert t[..i] == t;
    }
  }

  lemma DeadByte(ch: char)
    ensures ParseUrlChar(Dead, ch).Dead?
  {
  }

  lemma HostDies(s: HostState, t: string, i: nat)
    requires i <= |t| && HostFold(s, t[..i]).HostDead?
    ensures HostFold(s, t).HostDead?
    decreases |t| - i
  {
    if i < |t| {
      assert t[..i + 1][..i] == t[..i];
      HostDies(s, t, i + 1);
    } else {
      assert t[..i] == t;
    }
  }

  /** What follows an authority is not a digit. */
  lemma NoDigitFollows(buf: string, hi: nat, f: Fields, query: bool, hashes: nat)
    requires TailOk(buf, hi, |buf|, f, query, hashes) && hi < |buf|
    ensures !IsNum(buf[hi])
  {
  }

  lemma DecStep(v: nat, buf: string, from: nat, i: nat)
    requires from <= i < |buf| && IsNum(buf[i])
    ensures DecValue(v, buf[from..i + 1]) == DecValue(v, buf[from..i]) * 10 + Digit(buf[i])
  {
    assert buf[from..i + 1] == buf[from..i] + [buf[i]];
    DecSnoc(v, buf[from..i], buf[i]);
  }

  /** Where the digits that start at `from` end. */
  function DigitsEnd(buf: string, from: nat): (to: nat)
    requires from <= |buf|
    ensures from <= to <= |buf| && (forall i :: from <= i < to ==> IsNum(buf[i])) && (to < |buf| ==> !IsNum(buf[to]))
    decreases |buf| - from
  {
    if from < |buf| && IsNum(buf[from]) then DigitsEnd(buf, from + 1) else from
  }

  /** strtoul: the value of the digits from `from` on, or ULONG_MAX if it is greater. */
  method Strtoul(buf: string, from: nat) returns (v: nat)
    requires from <= |buf|
    ensures var n := DecValue(0, buf[from..DigitsEnd(buf, from)]); v == if n > ULLONG_MAX then ULLONG_MAX else n
  {
    var i := from;
    v := 0;
    while i < |buf| && IsNum(buf[i])
      invariant from <= i <= |buf| && forall k :: from <= k < i ==> IsNum(buf[k])
      invariant v == if DecValue(0, buf[from..i]) > ULLONG_MAX then ULLONG_MAX else DecValue(0, buf[from..i])
    {
      DecStep(0, buf, from, i);
      v := v * 10 + Digit(buf[i]);
      if v > ULLONG_MAX {
        v := ULLONG_MAX;
      }
      i := i + 1;
    }
    assert i == DigitsEnd(buf, from);
  }

  /** struct http_parser_url */
  class Url {
    var fields: Fields
    var port: nat

    /** http_parser_url_init */
    constructor ()
      ensures fields == map[] && port == 0
    {
      fields, port := map[], 0;
    }

    /** The loop of http_parser_parse_url. */
    method Scan(buf: string, isConnect: bool) returns (ok: bool, at: bool, ghost query: bool, ghost hashes: nat)
      modifies this`fields
      ensures ok <==> !UrlFold(StartOf(isConnect), buf).Dead?
      ensures ok ==> Scanned(UrlFold(StartOf(isConnect), buf), buf, |buf|, fields, query, hashes)
      ensures ok ==> (at <==> AtIn(buf, fields))
    {
      hide AtIn, ParseUrlChar, Scanned, Advances, LastOk, UrlFold;
      var s := StartOf(isConnect);
      var last: Option<Field> := None;
      fields, at, query, hashes := map[], false, false, 0;
      StartScanned(buf, isConnect);
      var p := 0;
      while p < |buf|
        modifies this`fields
        invariant p <= |buf| && s == UrlFold(StartOf(isConnect), buf[..p])
        invariant Scanned(s, buf, p, fields, query, hashes) && LastOk(s, last, fields) && (at <==> AtIn(buf, fields))
      {
        NextByte(s, buf, p, fields, query, hashes, last);
        UrlFoldSnoc(StartOf(isConnect), buf, p);
        AdvancesTo(s, buf, p, fields, query, hashes, last);
        AtStep(s, buf, p, fields, query, hashes, last);
        s := ParseUrlChar(s, buf[p]);
        if s.Dead? {
          UrlDead(StartOf(isConnect), buf, p + 1);
          return false, at, query, hashes;
        }
        if s.ReqServerWithAt? {
          at := true;
        }
        if FieldOf(s).Some? {
          var k := FieldOf(s).value;
          if last == Some(k) {
            fields := fields[k := fields[k].(len := fields[k].len + 1)];
          } else {
            fields := fields[k := Span(p, 1)];
            last := Some(k);
          }
        }
        query := query || s.ReqQueryStringStart?;
        hashes := if s.ReqFragmentStart? then hashes + 1 else hashes;
        p := p + 1;
      }
      assert buf[..p] == buf;
      Alive(s, buf, p, fields, query, hashes);
      ok := true;
    }

    /** The switch of http_parse_host over the new state. */
    method Grow(s: HostState, t: HostState, p: nat)
      requires HOST in fields && (s.Port? ==> PORT in fields) && (s.Userinfo? ==> USERINFO in fields)
      modifies this`fields
      ensures fields == HostGrown(s, t, old(fields), p) && SameRest(old(fields), fields)
    {
      match t {
        case Host =>
          fields := fields[HOST := Span(if s.Host? then fields[HOST].off else p, fields[HOST].len + 1)];
        case V6 =>
          fields := fields[HOST := Span(if s.V6? then fields[HOST].off else p, fields[HOST].len + 1)];
        case ZoneStart =>
          fields := fields[HOST := fields[HOST].(len := fields[HOST].len + 1)];
        case Zone =>
          fields := fields[HOST := fields[HOST].(len := fields[HOST].len + 1)];
        case Port =>
          fields := fields[PORT := if s.Port? then fields[PORT].(len := fields[PORT].len + 1) else Span(p, 1)];
        case Userinfo =>
          fields := fields[USERINFO :=
            if s.Userinfo? then fields[USERINFO].(len := fields[USERINFO].len + 1) else Span(p, 1)];
        case _ =>
      }
    }

    /** http_parse_host, for the authority that HOST spans. */
    method ParseHost(buf: string, at: bool) returns (failed: bool, ghost v6: bool)
      requires HOST in fields && PORT !in fields && USERINFO !in fields && fields[HOST].off + fields[HOST].len <= |buf|
      modifies this`fields
      ensures !failed <==> MayEnd(HostFold(HostStartOf(at), old(Part(buf, fields[HOST]))))
      ensures !failed ==> var lo := old(fields[HOST].off);
        && HostOk(buf, lo, fields, at, v6) && PortOk(buf, HostEnd(lo, fields, at, v6), fields)
        && HostEnd(lo, fields, at, v6) + (if PORT in fields then 1 + fields[PORT].len else 0) == old(PathEnd(fields))
      ensures SameRest(old(fields), fields) && HOST in fields
    {
      hide ParseHostChar, Parted, HostAdvances, HostFold, MayEnd, HostGrown, HostOk, PortOk;
      var lo, hi := fields[HOST].off, fields[HOST].off + fields[HOST].len;
      ghost var f0, text := fields, buf[lo..hi];
      fields := fields[HOST := Span(lo, 0)];
      var s := HostStartOf(at);
      v6 := false;
      HostBegins(buf, lo, fields, at);
      var p := lo;
      while p < hi
        modifies this`fields
        invariant lo <= p <= hi && Parted(s, buf, lo, p, fields, at, v6) && SameRest(f0, fields)
        invariant s == HostFold(HostStartOf(at), text[..p - lo])
      {
        NextHostByte(s, buf, lo, p, fields, at, v6);
        HostFoldStep(HostStartOf(at), text, p - lo);
        PartedHas(s, buf, lo, p, fields, at, v6);
        AdvancesHost(s, buf, lo, p, fields, at, v6);
        var t := ParseHostChar(s, buf[p]);
        if t.HostDead? {
          HostDies(HostStartOf(at), text, p - lo + 1);
          DeadMayNotEnd();
          return true, v6;
        }
        Grow(s, t, p);
        v6 := v6 || t.V6Start?;
        s := t;
        p := p + 1;
      }
      assert text[..p - lo] == text;
      Ended(s, buf, lo, hi, fields, at, v6);
      failed := match s
        case HostStart => true
        case V6Start => true
        case V6 => true
        case ZoneStart => true
        case Zone => true
        case PortStart => true
        case Userinfo => true
        case UserinfoStart => true
        case _ => false;
    }

    /** The end of http_parser_parse_url: the digits of the port as a number. */
    method ReadPort(buf: string, ghost at: bool, ghost v6: bool, ghost query: bool, ghost hashes: nat)
      returns (failed: bool)
      requires Laid(buf, fields, at, v6, query, hashes) && port == 0
      modifies this`port
      ensures PORT in fields ==> fields[PORT].off + fields[PORT].len <= |buf|
      ensures failed <==> PORT in fields && DecValue(0, Part(buf, fields[PORT])) > 0xFFFF
      ensures !failed ==> port == if PORT in fields then DecValue(0, Part(buf, fields[PORT])) else 0
    {
      hide TailOk, HostOk, SchemaOk, DecValue;
      if PORT in fields {
        var v := Strtoul(buf, fields[PORT].off);
        PortSpan(buf, fields, at, v6, query, hashes, DigitsEnd(buf, fields[PORT].off));
        if v > 0xFFFF {
          return true;
        }
        port := v;
      }
      failed := false;
    }

    /**
     http_parser_parse_url. `first` is what the first pass finds, with the whole authority under HOST. The result is an
     error exactly when the text is no URL, a schema lacks an authority, the authority cannot be parted, a CONNECT
     target is not a host and a port, or the port is too great.
    */
    method Parse(buf: string, isConnect: bool)
      returns (failed: bool, ghost first: Fields, ghost at: bool, ghost v6: bool, ghost query: bool, ghost hashes: nat)
      requires |buf| <= 0xFFFF
      modifies this
      ensures var s := UrlFold(StartOf(isConnect), buf);
        && (!s.Dead? ==> Scanned(s, buf, |buf|, first, query, hashes) && (at <==> AtIn(buf, first)))
        && (failed <==> s.Dead? || Refused(buf, isConnect, first, fields, at))
      ensures !failed ==> Laid(buf, fields, at, v6, query, hashes)
      ensures !failed && PORT in fields ==>
          PortEnd(fields) <= |buf| && port == DecValue(0, Part(buf, fields[PORT])) <= 0xFFFF
      ensures !failed && PORT !in fields ==> port == 0
    {
      hide ParseUrlChar, Scanned, UrlFold, HostFold, HostOk, PortOk, SchemaOk, Laid, SameRest, TailOk, DecValue;
      port, fields := 0, map[];
      v6 := false;
      var ok, found;
      ok, found, query, hashes := Scan(buf, isConnect);
      first := fields;
      at := found;
      if !ok {
        return true, first, at, v6, query, hashes;
      }
      if SCHEMA in fields && HOST !in fields {
        return true, first, at, v6, query, hashes;
      }
      FirstPass(UrlFold(StartOf(isConnect), buf), buf, first, query, hashes);
      assert HOST in first ==> PathEnd(first) == first[HOST].off + first[HOST].len;
      if HOST in fields {
        failed, v6 := ParseHost(buf, found);
        if failed {
          return;
        }
      }
      BothPasses(buf, first, fields, at, v6, query, hashes);
      if isConnect && fields.Keys != {HOST, PORT} {
        return true, first, at, v6, query, hashes;
      }
      failed := ReadPort(buf, at, v6, query, hashes);
    }
  }

  function PortEnd(f: Fields): nat
    requires PORT in f
  {
    f[PORT].off + f[PORT].len
  }

  /** Why a text that has the form of a URL is refused. */
  predicate Refused(buf: string, isConnect: bool, first: Fields, f: Fields, at: bool) {
    || (SCHEMA in first && HOST !in first)
    || (HOST in first && first[HOST].off + first[HOST].len <= |buf| && !MayEnd(HostFold(HostStartOf(at),
      Part(buf, first[HOST]))))
    || (isConnect && f.Keys != {HOST, PORT})
    || (PORT in f && PortEnd(f) <= |buf| && DecValue(0, Part(buf, f[PORT])) > 0xFFFF)
  }

  function PathEnd(f: Fields): nat
    requires HOST in f
  {
    f[HOST].off + f[HOST].len
  }

  /** http_parse_host touches these three fields only. */
  predicate SameRest(f: Fields, g: Fields) {
    forall k :: k != HOST && k != PORT && k != USERINFO ==> (k in f <==> k in g) && (k in f ==> f[k] == g[k])
  }

  lemma HostBegins(buf: string, lo: nat, f: Fields, at: bool)
    requires lo <= |buf| && HOST in f && f[HOST] == Span(lo, 0) && PORT !in f && USERINFO !in f
    ensures Parted(HostStartOf(at), buf, lo, lo, f, at, false) && HostFold(HostStartOf(at), "") == HostStartOf(at)
  {
  }

  lemma HostFoldStep(s: HostState, t: string, i: nat)
    requires i < |t|
    ensures HostFold(s, t[..i + 1]) == ParseHostChar(HostFold(s, t[..i]), t[i])
  {
    hide ParseHostChar;
    assert t[..i + 1][..i] == t[..i];
  }

  lemma PartedHas(s: HostState, buf: string, lo: nat, i: nat, f: Fields, at: bool, v6: bool)
    requires Parted(s, buf, lo, i, f, at, v6)
    ensures HOST in f && (s.Port? ==> PORT in f) && (s.Userinfo? ==> USERINFO in f)
  {
  }

  lemma AdvancesHost(s: HostState, buf: string, lo: nat, i: nat, f: Fields, at: bool, v6: bool)
    requires i < |buf| && HOST in f && (s.Port? ==> PORT in f) && (s.Userinfo? ==> USERINFO in f)
    requires HostAdvances(s, buf, lo, i, f, at, v6)
    ensures var t := ParseHostChar(s, buf[i]);
      !t.HostDead? ==> Parted(t, buf, lo, i + 1, HostGrown(s, t, f, i), at, v6 || t.V6Start?)
  {
    hide ParseHostChar, Parted, HostGrown;
  }

  lemma DeadMayNotEnd()
    ensures !MayEnd(HostDead)
  {
  }

  lemma Ended(s: HostState, buf: string, lo: nat, hi: nat, f: Fields, at: bool, v6: bool)
    requires Parted(s, buf, lo, hi, f, at, v6)
    ensures MayEnd(s) <==> s.Host? || s.V6End? || s.Port?
    ensures !s.HostDead? && HOST in f
    ensures MayEnd(s) ==>
      && HostOk(buf, lo, f, at, v6) && PortOk(buf, HostEnd(lo, f, at, v6), f)
      && HostEnd(lo, f, at, v6) + (if PORT in f then 1 + f[PORT].len else 0) == hi
  {
  }

  /** What the first pass leaves when its text is accepted and a schema is followed by an authority. */
  lemma FirstPass(s: State, buf: string, f: Fields, query: bool, hashes: nat)
    requires Scanned(s, buf, |buf|, f, query, hashes) && (SCHEMA in f ==> HOST in f)
    ensures Tiled(buf, |buf|, f, query, hashes) && PORT !in f && USERINFO !in f && SameRest(f, f)
    ensures HOST in f ==> f[HOST].off == AuthorityAt(f) && PathEnd(f) == PathAt(f) <= |buf|
  {
  }

  /** The second pass parts the authority and leaves the tail where it was. */
  lemma BothPasses(buf: string, f: Fields, g: Fields, at: bool, v6: bool, query: bool, hashes: nat)
    requires Tiled(buf, |buf|, f, query, hashes) && (SCHEMA in f ==> HOST in f) && SameRest(f, g)
    requires (HOST in f <==> HOST in g)
    requires if HOST in f then
               var lo := f[HOST].off;
               && HostOk(buf, lo, g, at, v6) && PortOk(buf, HostEnd(lo, g, at, v6), g)
               && HostEnd(lo, g, at, v6) + (if PORT in g then 1 + g[PORT].len else 0) == PathEnd(f)
             else f == g && !at && !v6
    ensures Laid(buf, g, at, v6, query, hashes)
  {
    assert AuthorityAt(g) == AuthorityAt(f);
    SameTail(buf, PathAt(f), f, g, query, hashes);
  }

  lemma SameTail(buf: string, path: nat, f: Fields, g: Fields, query: bool, hashes: nat)
    requires TailOk(buf, path, |buf|, f, query, hashes) && SameRest(f, g)
    ensures TailOk(buf, path, |buf|, g, query, hashes)
  {
  }

  /** strtoul stops at the end of the port. */
  lemma PortSpan(buf: string, f: Fields, at: bool, v6: bool, query: bool, hashes: nat, to: nat)
    requires Laid(buf, f, at, v6, query, hashes) && PORT in f && f[PORT].off <= to <= |buf|
    requires (forall i :: f[PORT].off <= i < to ==> IsNum(buf[i])) && (to < |buf| ==> !IsNum(buf[to]))
    ensures to == f[PORT].off + f[PORT].len
  {
    var end := AuthorityEnd(f, at, v6);
    if end < |buf| { NoDigitFollows(buf, end, f, query, hashes); }
  }

  // ---------- what a reader of the spans may rely on ----------

  predicate Inside(f: Fields, k: Field, i: nat) { k in f && f[k].off <= i < f[k].off + f[k].len }

  predicate IsDelimiter(ch: char) {
    ch == ':' || ch == '/' || ch == '@' || ch == '[' || ch == ']' || ch == '?' || ch == '#'
  }

  /** The order of the fields in a URL. */
  function Position(k: Field): nat {
    match k
    case SCHEMA => 0
    case USERINFO => 1
    case HOST => 2
    case PORT => 3
    case PATH => 4
    case QUERY => 5
    case FRAGMENT => 6
  }

  /** The stretch of the text in which a field lies. */
  function Low(f: Fields, at: bool, v6: bool, query: bool, hashes: nat, k: Field): nat {
    var lo, e := AuthorityAt(f), AuthorityEnd(f, at, v6);
    match k
    case SCHEMA => 0
    case USERINFO => lo
    case HOST => UserEnd(lo, f, at)
    case PORT => HostEnd(lo, f, at, v6)
    case PATH => e
    case QUERY => MarkAt(e, f)
    case FRAGMENT => HashAt(e, f, query) + hashes
  }

  function High(buf: string, f: Fields, at: bool, v6: bool, query: bool, k: Field): nat {
    var lo, e := AuthorityAt(f), AuthorityEnd(f, at, v6);
    match k
    case SCHEMA => lo
    case USERINFO => UserEnd(lo, f, at)
    case HOST => HostEnd(lo, f, at, v6)
    case PORT => e
    case PATH => MarkAt(e, f)
    case QUERY => HashAt(e, f, query)
    case FRAGMENT => |buf|
  }

  lemma FieldLies(buf: string, f: Fields, at: bool, v6: bool, query: bool, hashes: nat, k: Field)
    requires Laid(buf, f, at, v6, query, hashes) && k in f
    ensures Low(f, at, v6, query, hashes, k) <= f[k].off < f[k].off + f[k].len <= High(buf, f, at, v6, query,
        k) <= |buf|
  {
    if k.PATH? || k.QUERY? || k.FRAGMENT? {
      hide HostOk, PortOk, SchemaOk, UserOk;
    } else {
      AuthorityLies(buf, f, at, v6, query, hashes, k);
    }
  }

  lemma AuthorityLies(buf: string, f: Fields, at: bool, v6: bool, query: bool, hashes: nat, k: Field)
    requires Laid(buf, f, at, v6, query, hashes) && k in f && !k.PATH? && !k.QUERY? && !k.FRAGMENT?
    ensures Low(f, at, v6, query, hashes, k) <= f[k].off < f[k].off + f[k].len <= High(buf, f, at, v6, query,
        k) <= |buf|
  {
    hide TailOk;
  }

  lemma StretchesFollow(buf: string, f: Fields, at: bool, v6: bool, query: bool, hashes: nat, j: Field, k: Field)
    requires Laid(buf, f, at, v6, query, hashes) && Position(j) < Position(k) && j in f && k in f
    ensures High(buf, f, at, v6, query, j) <= Low(f, at, v6, query, hashes, k)
  {
  }

  lemma AuthorityBytes(buf: string, f: Fields, at: bool, v6: bool, query: bool, hashes: nat, i: nat)
    requires Laid(buf, f, at, v6, query, hashes) && i < AuthorityEnd(f, at, v6) && i < |buf|
    ensures IsDelimiter(buf[i]) || Inside(f, SCHEMA, i) || Inside(f, USERINFO, i) || Inside(f, HOST, i)
        || Inside(f, PORT, i)
  {
    hide TailOk;
    var lo := AuthorityAt(f);
    if i < lo {
      SchemaBytes(buf, f, i);
    }
  }

  lemma SchemaBytes(buf: string, f: Fields, i: nat)
    requires SchemaOk(buf, f) && i < AuthorityAt(f)
    ensures i < |buf| && (Inside(f, SCHEMA, i) || IsDelimiter(buf[i]))
  {
    var n := f[SCHEMA].len;
    if i >= n {
      assert buf[n..n + 3][i - n] == buf[i] && buf[n..n + 3] == "://";
    }
  }

  lemma TailBytes(buf: string, path: nat, f: Fields, query: bool, hashes: nat, i: nat)
    requires TailOk(buf, path, |buf|, f, query, hashes) && path <= i < |buf|
    ensures IsDelimiter(buf[i]) || Inside(f, PATH, i) || Inside(f, QUERY, i) || Inside(f, FRAGMENT, i)
  {
  }

  /** All fields lie within the text and come one after the other; each byte belongs to a field or is a delimiter. */
  lemma SpansTile(buf: string, f: Fields, at: bool, v6: bool, query: bool, hashes: nat)
    requires Laid(buf, f, at, v6, query, hashes)
    ensures forall k :: k in f ==> f[k].len > 0 && f[k].off + f[k].len <= |buf|
    ensures forall j, k :: j in f && k in f && Position(j) < Position(k) ==> f[j].off + f[j].len <= f[k].off
    ensures forall i :: 0 <= i < |buf| && !IsDelimiter(buf[i]) ==> exists k :: Inside(f, k, i)
  {
    hide Laid, Low, High, IsDelimiter, AuthorityEnd;
    forall k | k in f ensures f[k].len > 0 && f[k].off + f[k].len <= |buf| {
      FieldLies(buf, f, at, v6, query, hashes, k);
    }
    forall j, k | j in f && k in f && Position(j) < Position(k) ensures f[j].off + f[j].len <= f[k].off {
      FieldLies(buf, f, at, v6, query, hashes, j);
      FieldLies(buf, f, at, v6, query, hashes, k);
      StretchesFollow(buf, f, at, v6, query, hashes, j, k);
    }
    forall i | 0 <= i < |buf| && !IsDelimiter(buf[i]) ensures exists k :: Inside(f, k, i) {
      if i < AuthorityEnd(f, at, v6) {
        AuthorityBytes(buf, f, at, v6, query, hashes, i);
      } else {
        LaidTail(buf, f, at, v6, query, hashes);
        TailBytes(buf, AuthorityEnd(f, at, v6), f, query, hashes, i);
      }
    }
  }

  lemma LaidTail(buf: string, f: Fields, at: bool, v6: bool, query: bool, hashes: nat)
    requires Laid(buf, f, at, v6, query, hashes)
    ensures TailOk(buf, AuthorityEnd(f, at, v6), |buf|, f, query, hashes)
  {
  }
}
