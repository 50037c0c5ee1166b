/** Which responses a shared cache may keep, for how long, and who may be shown them
    (sections 3, 4.2.1 and 5.2 of RFC 9111, narrowed to what this cache admits).
 */
module CachePolicy {
  import opened Basics
  import opened CacheSpec

  /** Times and durations are in one unit; a lifetime of zero or less is none at all. */
  datatype Config = Config(ttl: int, maxTTL: int, maxObjectBytes: int)

  datatype CacheControl = CacheControl(
    present: bool, noStore: bool, noCache: bool, isPrivate: bool, isPublic: bool,
    maxAge: Option<nat>, sMaxAge: Option<nat>)

  datatype Expires = NoExpires | BadExpires | ExpiresAt(t: int)

  datatype Request = Request(isGet: bool, authorization: bool, cookie: bool, noStore: bool, noCache: bool)

  /** length is Content-Length when it parses as an integer; varyOther says that Vary names
      something besides Accept-Encoding. */
  datatype Response = Response(
    status: int, length: Option<int>, setCookie: bool, varyOther: bool, cc: CacheControl,
    pragmaNoCache: bool, expires: Expires, headerBytes: nat)

  datatype Terms = Terms(expiresAt: int, isPublic: bool, length: nat)

  predicate Credentialed(r: Request) { r.authorization || r.cookie }

  /** How long the response may be held, or nothing when the origin's own answer is "not at all". */
  function Freshness(cc: CacheControl, expires: Expires, cfg: Config, now: int): Option<int> {
    if cc.sMaxAge.None? && cc.maxAge.None? && expires.BadExpires? then None
    else
      var ttl :=
        if cc.sMaxAge.Some? then cc.sMaxAge.value
        else if cc.maxAge.Some? then cc.maxAge.value
        else if expires.ExpiresAt? then expires.t - now
        else cfg.ttl;
      if ttl <= 0 then None else if ttl > cfg.maxTTL then Some(cfg.maxTTL) else Some(ttl)
  }

  function Storable(cfg: Config, req: Request, resp: Response, now: int): Option<Terms> {
    if !req.isGet || resp.status != 200 then None
    else if resp.length.None? || resp.length.value < 0 || resp.length.value > cfg.maxObjectBytes then None
    else if resp.setCookie then None
    else if resp.varyOther then None
    else if resp.cc.noStore || resp.cc.noCache || resp.cc.isPrivate then None
    else if !resp.cc.present && resp.pragmaNoCache then None
    else if Credentialed(req) && !resp.cc.isPublic then None
    else
      match Freshness(resp.cc, resp.expires, cfg, now)
      case None => None
      case Some(ttl) => Some(Terms(now + ttl, resp.cc.isPublic, resp.length.value))
  }

  predicate Servable(e: Entry, req: Request) {
    !req.noStore && !req.noCache && (Credentialed(req) ==> e.isPublic)
  }

  /** The moment the origin itself says the response goes stale, if it says one. */
  function OriginLimit(resp: Response, now: int): Option<int> {
    match (resp.cc.sMaxAge, resp.cc.maxAge, resp.expires)
    case (Some(s), _, _) => Some(now + s)
    case (None, Some(m), _) => Some(now + m)
    case (None, None, ExpiresAt(t)) => Some(t)
    case (None, None, BadExpires) => Some(now)
    case (None, None, NoExpires) => None
  }

  /** A stored response expires at the earliest of the origin's limit (the configured default
      when it gives none) and MaxTTL from now; one that would already be stale is not stored,
      so unless MaxTTL itself is not positive the expiry lies ahead. */
  lemma ExpiryIsEarliestLimit(cfg: Config, req: Request, resp: Response, now: int)
    requires Storable(cfg, req, resp, now).Some?
    ensures var t := Storable(cfg, req, resp, now).value.expiresAt;
            var limit := if OriginLimit(resp, now).Some? then OriginLimit(resp, now).value else now + cfg.ttl;
            && now < limit && t <= limit && t <= now + cfg.maxTTL
            && (t == limit || t == now + cfg.maxTTL)
            && (now < t <==> cfg.maxTTL > 0)
  {}

  /** Who may be shown a fresh entry: anyone who lets caches answer, with credentials only what an
      origin marked public. */
  lemma ServableExactly(e: Entry, req: Request)
    ensures Servable(e, req) <==> !(req.noStore || req.noCache) && (e.isPublic || !(req.authorization || req.cookie))
  {}

  /** A complete 200 answer to a GET, of a declared size within bounds, that nothing in its header
      forbids to share and that is not stale already, is storable until its own limit or MaxTTL. */
  lemma StorableWhen(cfg: Config, req: Request, resp: Response, now: int)
    requires req.isGet && resp.status == 200 && resp.length.Some? && 0 <= resp.length.value <= cfg.maxObjectBytes
    requires !resp.setCookie && !resp.varyOther && !resp.cc.noStore && !resp.cc.noCache && !resp.cc.isPrivate
    requires (resp.cc.present || !resp.pragmaNoCache) && (req.authorization || req.cookie ==> resp.cc.isPublic)
    requires match OriginLimit(resp, now) case Some(t) => t > now case None => cfg.ttl > 0
    ensures var limit := if OriginLimit(resp, now).Some? then OriginLimit(resp, now).value else now + cfg.ttl;
            Storable(cfg, req, resp, now)
            == Some(Terms(if limit <= now + cfg.maxTTL then limit else now + cfg.maxTTL, resp.cc.isPublic, resp.length.value))
  {}

  /** And nothing else is. */
  lemma StorableOnly(cfg: Config, req: Request, resp: Response, now: int)
    requires Storable(cfg, req, resp, now).Some?
    ensures req.isGet && resp.status == 200 && resp.length.Some? && 0 <= resp.length.value <= cfg.maxObjectBytes
    ensures !resp.setCookie && !resp.varyOther && !resp.cc.noStore && !resp.cc.noCache && !resp.cc.isPrivate
    ensures (resp.cc.present || !resp.pragmaNoCache) && (req.authorization || req.cookie ==> resp.cc.isPublic)
    ensures match OriginLimit(resp, now) case Some(t) => t > now case None => cfg.ttl > 0
  {}
}
