/** The parser record and its enumerations (tools/wrk/src/http_parser.h, http_parser.c). */
module HttpTypes {

  const ULLONG_MAX: nat := 0xFFFF_FFFF_FFFF_FFFF
  const MAX_HEADER: nat := 80 * 1024

  datatype Option<+T> = None | Some(value: T)

  datatype Type = Request | Response | Both

  datatype State =
    | Dead
    | StartReqOrRes | ResOrRespH
    | StartRes | ResH | ResHT | ResHTT | ResHTTP | ResHttpMajor | ResHttpDot | ResHttpMinor | ResHttpEnd
    | ResFirstStatusCode | ResStatusCode | ResStatusStart | ResStatus | ResLineAlmostDone
    | StartReq | ReqMethod | ReqSpacesBeforeUrl
    | ReqSchema | ReqSchemaSlash | ReqSchemaSlashSlash | ReqServerStart | ReqServer | ReqServerWithAt
    | ReqPath | ReqQueryStringStart | ReqQueryString | ReqFragmentStart | ReqFragment
    | ReqHttpStart | ReqHttpH | ReqHttpHT | ReqHttpHTT | ReqHttpHTTP
    | ReqHttpMajor | ReqHttpDot | ReqHttpMinor | ReqHttpEnd | ReqLineAlmostDone
    | HeaderFieldStart | HeaderField
    | HeaderValueDiscardWs | HeaderValueDiscardWsAlmostDone | HeaderValueDiscardLws
    | HeaderValueStart | HeaderValue | HeaderValueLws | HeaderAlmostDone
    | ChunkSizeStart | ChunkSize | ChunkParameters | ChunkSizeAlmostDone
    | HeadersAlmostDone | HeadersDone
    | ChunkData | ChunkDataAlmostDone | ChunkDataDone
    | BodyIdentity | BodyIdentityEof
    | MessageDone

  datatype HeaderState =
    | HGeneral | HC | HCo | HCon
    | HMatchingConnection | HMatchingProxyConnection | HMatchingContentLength
    | HMatchingTransferEncoding | HMatchingUpgrade
    | HConnection | HContentLength | HTransferEncoding | HUpgrade
    | HMatchingChunked | HMatchingTokenStart | HMatchingKeepAlive | HMatchingClose
    | HMatchingConnUpgrade | HMatchingToken
    | HChunked | HConnKeepAlive | HConnClose | HConnUpgrade

  datatype Method =
    | DELETE | GET | HEAD | POST | PUT | CONNECT | OPTIONS | TRACE
    | COPY | LOCK | MKCOL | MOVE | PROPFIND | PROPPATCH | SEARCH | UNLOCK | BIND | REBIND | UNBIND | ACL
    | REPORT | MKACTIVITY | CHECKOUT | MERGE | MSEARCH | NOTIFY | SUBSCRIBE | UNSUBSCRIBE
    | PATCH | PURGE | MKCALENDAR | LINK | UNLINK

  datatype Errno =
    | OK | InvalidEofState | HeaderOverflow | ClosedConnection | InvalidVersion | InvalidStatus | InvalidMethod
    | InvalidUrl | LfExpected | InvalidHeaderToken | InvalidContentLength | UnexpectedContentLength
    | InvalidChunkSize | InvalidConstant | Strict

  datatype Flags = Flags(chunked: bool, keepAlive: bool, close: bool, connUpgrade: bool,
                         trailing: bool, upgrade: bool, skipBody: bool, contentLength: bool)

  const NO_FLAGS := Flags(false, false, false, false, false, false, false, false)

  /** The fields of struct http_parser, except nread, which is kept beside the record. */
  datatype Parser = Parser(kind: Type, flags: Flags, state: State, hstate: HeaderState, index: nat, lenient: bool,
                           clen: nat, major: nat, minor: nat, status: nat, meth: Method,
                           errno: Errno, upgrade: bool)

  /** The spelling of a method on the wire. */
  function MethodString(m: Method): string {
    match m
    case DELETE => "DELETE" case GET => "GET" case HEAD => "HEAD" case POST => "POST" case PUT => "PUT"
    case CONNECT => "CONNECT" case OPTIONS => "OPTIONS" case TRACE => "TRACE" case COPY => "COPY"
    case LOCK => "LOCK" case MKCOL => "MKCOL" case MOVE => "MOVE" case PROPFIND => "PROPFIND"
    case PROPPATCH => "PROPPATCH" case SEARCH => "SEARCH" case UNLOCK => "UNLOCK" case BIND => "BIND"
    case REBIND => "REBIND" case UNBIND => "UNBIND" case ACL => "ACL" case REPORT => "REPORT"
    case MKACTIVITY => "MKACTIVITY" case CHECKOUT => "CHECKOUT" case MERGE => "MERGE" case MSEARCH => "M-SEARCH"
    case NOTIFY => "NOTIFY" case SUBSCRIBE => "SUBSCRIBE" case UNSUBSCRIBE => "UNSUBSCRIBE" case PATCH => "PATCH"
    case PURGE => "PURGE" case MKCALENDAR => "MKCALENDAR" case LINK => "LINK" case UNLINK => "UNLINK"
  }

  /** The state http_parser_init leaves, for a parser of the given type. */
  function Init(kind: Type): Parser {
    Parser(kind, NO_FLAGS, match kind case Request => StartReq case Response => StartRes case Both => StartReqOrRes,
           HGeneral, 0, false, 0, 0, 0, 0, DELETE, OK, false)
  }

  /** States after HeadersDone belong to a body; only the others count towards the header size. */
  predicate ParsingHeader(s: State) {
    && !s.ChunkData? && !s.ChunkDataAlmostDone? && !s.ChunkDataDone?
    && !s.BodyIdentity? && !s.BodyIdentityEof? && !s.MessageDone?
  }

  /** http_message_needs_eof */
  predicate NeedsEof(p: Parser) {
    !p.kind.Request?
    && !(p.status / 100 == 1 || p.status == 204 || p.status == 304 || p.flags.skipBody)
    && !(p.flags.chunked || p.clen != ULLONG_MAX)
  }

  /** http_should_keep_alive */
  predicate ShouldKeepAlive(p: Parser) {
    (if p.major > 0 && p.minor > 0 then !p.flags.close else p.flags.keepAlive) && !NeedsEof(p)
  }

  function StartState(p: Parser): State { if p.kind.Request? then StartReq else StartRes }

  /** NEW_MESSAGE() of the strict build. */
  function NewMessage(p: Parser): (s: State)
    ensures s.StartReq? || s.StartRes? || s.Dead?
  {
    if ShouldKeepAlive(p) then StartState(p) else Dead
  }
}
