/**
 Forwarding a request to the leader (ca/forward.go, ca/auth.go and the generated raft proxies):
 what the proxy puts into the metadata and whom the receiver takes for the client.
 */
module Forwarding {
  import opened Api
  import opened Outcomes

  type Metadata = map<string, seq<string>>

  const FORWARDED := "forwarded_cert"
  const CN := "forwarded_cert_cn"
  const OU := "forwarded_cert_ou"
  const ORG := "forwarded_cert_org"
  const ADDR := "remote_addr"
  const REDIRECT := "redirect"

  /** The subject of a certificate; a peer may have none. */
  datatype Subject = Subject(cn: string, orgs: seq<string>, ous: seq<string>)
  datatype Peer = Peer(addr: string, cert: Option<Subject>)

  datatype NodeInfo = NodeInfo(roles: seq<string>, org: string, id: string, forwardedBy: Option<NodeInfo>, addr: string)

  /** What the handlers read of a request's context. */
  datatype Context = Context(incoming: Option<Metadata>, outgoing: Option<Metadata>, peer: Option<Peer>, localInfo: Option<NodeInfo>)

  datatype Error = NoPeer | TooManyRedirects | NoCertificate | MissingInformation | Denied
  type Result<+T> = Outcome<T, Error>

  function Values(md: Option<Metadata>, key: string): seq<string> {
    if md.Some? && key in md.value then md.value[key] else []
  }

  function FirstOrEmpty(vs: seq<string>): string { if vs == [] then "" else vs[0] }

  /** `isForwardedRequest`. */
  predicate IsForwarded(c: Context) { Values(c.incoming, FORWARDED) == ["true"] }

  function CertSubject(c: Context): Option<Subject> { if c.peer.Some? then c.peer.value.cert else None }

  /** The check every generated proxy runs first. */
  function RedirectChecked(c: Context): Result<Context> {
    if c.peer.None? then Err(NoPeer)
    else if Values(c.incoming, REDIRECT) != [] then Err(TooManyRedirects)
    else
      var md := if c.incoming.Some? then c.incoming.value else map[];
      Ok(c.(outgoing := Some(md[REDIRECT := [c.peer.value.addr]])))
  }

  /** `WithMetadataForwardTLSInfo`. */
  function WithForwardedTLSInfo(c: Context): Result<Context> {
    if IsForwarded(c) then Err(TooManyRedirects)
    else
      var md := if c.outgoing.Some? then c.outgoing.value else map[];
      var subject := CertSubject(c);
      var cn := if subject.Some? then subject.value.cn else "";
      var org := if subject.Some? then FirstOrEmpty(subject.value.orgs) else "";
      var ous := if subject.Some? then subject.value.ous else [];
      var md1 := md[FORWARDED := ["true"]][CN := [cn]][ORG := [org]][OU := ous];
      Ok(c.(outgoing := Some(if c.peer.Some? then md1[ADDR := [c.peer.value.addr]] else md1 - {ADDR})))
  }

  type Modifier = Context -> Result<Context>

  function Modified(c: Context, mods: seq<Modifier>): Result<Context> {
    if mods == [] then Ok(c)
    else match Modified(c, mods[..|mods| - 1])
      case Err(e) => Err(e)
      case Ok(c1) => mods[|mods| - 1](c1)
  }

  /** `runCtxMods`. */
  method RunModifiers(c: Context, mods: seq<Modifier>) returns (r: Result<Context>)
    ensures r == Modified(c, mods)
  {
    var ctx := c;
    for i := 0 to |mods|
      invariant Modified(c, mods[..i]) == Ok(ctx)
    {
      var next := mods[i](ctx);
      assert mods[..i + 1][..i] == mods[..i];
      if next.Err? {
        StopsAt(c, mods, i + 1);
        return Err(next.error);
      }
      ctx := next.value;
    }
    assert mods[..|mods|] == mods;
    return Ok(ctx);
  }

  lemma {:induction false} StopsAt(c: Context, mods: seq<Modifier>, k: nat)
    requires k <= |mods| && Modified(c, mods[..k]).Err?
    ensures Modified(c, mods) == Modified(c, mods[..k])
  {
    if k == |mods| {
      assert mods[..k] == mods;
    } else {
      assert mods[..|mods| - 1][..k] == mods[..k];
      StopsAt(c, mods[..|mods| - 1], k);
    }
  }

  /** The modifiers of a proxy that installs the TLS modifier. */
  const REMOTE_MODS: seq<Modifier> := [RedirectChecked, WithForwardedTLSInfo]

  /** What the proxy sends to the leader. */
  function Forward(c: Context): Result<Metadata> {
    match RedirectChecked(c)
    case Err(e) => Err(e)
    case Ok(c1) =>
      match WithForwardedTLSInfo(c1)
      case Err(e) => Err(e)
      case Ok(c2) => Ok(if c2.outgoing.Some? then c2.outgoing.value else map[])
  }

  /** What arrives at the next node: a key without values leaves no header. */
  function Received(md: Metadata, proxy: Peer): Context {
    Context(Some(map k | k in md && md[k] != [] :: md[k]), None, Some(proxy), None)
  }

  /** `RemoteNode`. */
  function RemoteNode(c: Context): Result<NodeInfo> {
    if c.localInfo.Some? then Ok(c.localInfo.value)
    else match CertSubject(c)
      case None => Err(NoCertificate)
      case Some(s) =>
        var direct := NodeInfo(s.ous, FirstOrEmpty(s.orgs), s.cn, None, c.peer.value.addr);
        if !IsForwarded(c) then Ok(direct)
        else
          var addr := FirstOrEmpty(Values(c.incoming, ADDR));
          var cn := FirstOrEmpty(Values(c.incoming, CN));
          var org := FirstOrEmpty(Values(c.incoming, ORG));
          var ous := Values(c.incoming, OU);
          if ous == [] || cn == "" || org == "" then Err(MissingInformation)
          else Ok(NodeInfo(ous, org, cn, Some(direct), addr))
  }

  // ---- a request is forwarded at most once ----

  lemma ProxyModifiers(c: Context)
    ensures Forward(c).Ok? <==> Modified(c, REMOTE_MODS).Ok?
    ensures Forward(c).Ok? ==> Modified(c, REMOTE_MODS).value.outgoing == Some(Forward(c).value)
  {
    assert REMOTE_MODS[..1] == [RedirectChecked] && [RedirectChecked][..0] == [];
    assert Modified(c, []) == Ok(c);
    assert Modified(c, [RedirectChecked]) == RedirectChecked(c);
  }

  /** How often a request is passed on if every node of the chain passes it to the next. */
  function Forwards(c: Context, chain: seq<Peer>): nat
    decreases |chain|
  {
    if chain == [] then 0
    else match Forward(c)
      case Err(_) => 0
      case Ok(md) => 1 + Forwards(Received(md, chain[0]), chain[1..])
  }

  /** A forwarded request carries both marks that stop the next proxy. */
  lemma ForwardMarks(c: Context, proxy: Peer)
    requires Forward(c).Ok?
    ensures IsForwarded(Received(Forward(c).value, proxy))
    ensures Values(Received(Forward(c).value, proxy).incoming, REDIRECT) == [c.peer.value.addr]
    ensures Forward(Received(Forward(c).value, proxy)) == Err(TooManyRedirects)
  {
  }

  /** Along any chain of proxies a request is forwarded at most once, whatever metadata it came
      with; it is forwarded exactly if its sender is known and it carries neither mark. */
  lemma SingleHop(c: Context, chain: seq<Peer>)
    ensures Forwards(c, chain) <= 1
    ensures Forwards(c, chain) == 1 <==> chain != [] && c.peer.Some? && Values(c.incoming, REDIRECT) == [] && !IsForwarded(c)
  {
    if chain != [] && Forward(c).Ok? {
      ForwardMarks(c, chain[0]);
      assert Forwards(Received(Forward(c).value, chain[0]), chain[1..]) == 0;
    }
  }

  /** A request is refused by the proxy for no other reason. */
  lemma RefusedExactly(c: Context)
    ensures Forward(c) == Err(NoPeer) <==> c.peer.None?
    ensures Forward(c) == Err(TooManyRedirects)
       <==> c.peer.Some? && (Values(c.incoming, "redirect") != [] || Values(c.incoming, "forwarded_cert") == ["true"])
    ensures Forward(c).Err? ==> Forward(c) == Err(NoPeer) || Forward(c) == Err(TooManyRedirects)
  {
  }

  /** The TLS modifier by itself: an unknown sender leaves no address, not even one of an earlier hop. */
  lemma UnknownSenderHasNoAddress(c: Context)
    requires WithForwardedTLSInfo(c).Ok?
    ensures Values(WithForwardedTLSInfo(c).value.outgoing, "remote_addr")
         == if c.peer.Some? then [c.peer.value.addr] else []
  {
  }

  const PROXY_HEADERS := {FORWARDED, CN, OU, ORG, ADDR, REDIRECT}

  /** The client's other headers arrive as they were sent. */
  lemma OtherHeadersKept(c: Context, proxy: Peer, key: string)
    requires Forward(c).Ok? && key !in PROXY_HEADERS
    ensures Values(Received(Forward(c).value, proxy).incoming, key) == Values(c.incoming, key)
  {
  }

  // ---- the receiver sees the original client ----

  /** The client's certificate names a node, an organization and a role. */
  predicate Named(p: Peer) {
    p.cert.Some? && p.cert.value.cn != "" && p.cert.value.ous != [] && FirstOrEmpty(p.cert.value.orgs) != ""
  }

  function Direct(p: Peer): NodeInfo
    requires p.cert.Some?
  {
    NodeInfo(p.cert.value.ous, FirstOrEmpty(p.cert.value.orgs), p.cert.value.cn, None, p.addr)
  }

  lemma Carried(c: Context, proxy: Peer)
    requires Forward(c).Ok? && c.peer.Some?
    ensures var s, inc := c.peer.value.cert, Received(Forward(c).value, proxy).incoming;
            && Values(inc, ADDR) == [c.peer.value.addr]
            && Values(inc, CN) == [if s.Some? then s.value.cn else ""]
            && Values(inc, ORG) == [if s.Some? then FirstOrEmpty(s.value.orgs) else ""]
            && Values(inc, OU) == (if s.Some? then s.value.ous else [])
  {
  }

  /** Forwarding is transparent: at the receiver the request comes from the client, with its ID,
      organization, roles and address, and the proxy recorded as forwarder. That is so exactly for a
      client whose certificate has all three; any other request is refused there, and never taken
      for the proxy's own. */
  lemma ForwardingIsTransparent(c: Context, proxy: Peer)
    requires Forward(c).Ok? && c.peer.Some? && proxy.cert.Some?
    ensures RemoteNode(Received(Forward(c).value, proxy))
         == if Named(c.peer.value) then Ok(Direct(c.peer.value).(forwardedBy := Some(Direct(proxy)))) else Err(MissingInformation)
  {
    ForwardMarks(c, proxy);
    Carried(c, proxy);
  }

  /** A request that was not forwarded comes from its peer, and a local one from the node itself. */
  lemma DirectIsOwn(c: Context)
    ensures c.localInfo.Some? ==> RemoteNode(c) == Ok(c.localInfo.value)
    ensures c.localInfo.None? && c.peer.Some? && c.peer.value.cert.Some? && !IsForwarded(c) ==>
              RemoteNode(c) == Ok(Direct(c.peer.value))
    ensures c.localInfo.None? && CertSubject(c).None? ==> RemoteNode(c) == Err(NoCertificate)
  {
  }

  /** Metadata of an earlier hop has no influence: two requests of the same peer are forwarded to the
      same information, whatever they came with. */
  lemma IncomingMetadataIsIgnored(c: Context, d: Context, proxy: Peer)
    requires c.peer == d.peer && Forward(c).Ok? && Forward(d).Ok? && proxy.cert.Some?
    ensures RemoteNode(Received(Forward(c).value, proxy)) == RemoteNode(Received(Forward(d).value, proxy))
  {
    assert c.peer.Some?;
    ForwardingIsTransparent(c, proxy);
    ForwardingIsTransparent(d, proxy);
  }

  // ---- the ID that authorization returns ----

  predicate Intersect(a: seq<string>, b: seq<string>) { exists x :: x in a && x in b }

  /** `intersectArrays`. */
  method IntersectArrays(orig: seq<string>, tgt: seq<string>) returns (r: bool)
    ensures r <==> Intersect(orig, tgt)
  {
    for i := 0 to |orig|
      invariant !Intersect(orig[..i], tgt)
    {
      if orig[i] in tgt { return true; }
      assert orig[..i + 1] == orig[..i] + [orig[i]];
    }
    assert orig[..|orig|] == orig;
    return false;
  }

  function AuthorizeOrgAndRole(c: Context, org: string, removed: set<string>, roles: seq<string>): Result<string> {
    match CertSubject(c)
    case None => Err(NoCertificate)
    case Some(s) =>
      if !Intersect(s.ous, roles) || s.cn in removed || FirstOrEmpty(s.orgs) != org || s.orgs == [] then Err(Denied)
      else Ok(s.cn)
  }

  function AuthorizeForwardedRoleAndOrg(
    c: Context, roles: seq<string>, forwarders: seq<string>, org: string, removed: set<string>): Result<string>
  {
    if !IsForwarded(c) then
      (if AuthorizeOrgAndRole(c, org, removed, roles).Ok? then AuthorizeOrgAndRole(c, org, removed, roles) else Err(Denied))
    else if AuthorizeOrgAndRole(c, org, removed, forwarders).Err? then Err(Denied)
    else
      var cn := FirstOrEmpty(Values(c.incoming, CN));
      var ous := Values(c.incoming, OU);
      if ous == [] || cn == "" || FirstOrEmpty(Values(c.incoming, ORG)) == "" then Err(Denied)
      else if !Intersect(ous, roles) || FirstOrEmpty(Values(c.incoming, ORG)) != org then Err(Denied)
      else Ok(cn)
  }

  /** The certificate is one of the organization, with one of the roles, and was not removed. */
  ghost predicate Belongs(s: Subject, org: string, removed: set<string>, roles: seq<string>) {
    && (exists i, j :: 0 <= i < |s.ous| && 0 <= j < |roles| && s.ous[i] == roles[j])
    && |s.orgs| > 0 && s.orgs[0] == org && s.cn !in removed
  }

  /** The metadata names the client `id`, in the organization and with one of the roles. */
  ghost predicate Vouches(md: Option<Metadata>, org: string, roles: seq<string>, id: string) {
    var cns, orgs, ous := Values(md, "forwarded_cert_cn"), Values(md, "forwarded_cert_org"), Values(md, "forwarded_cert_ou");
    && |cns| > 0 && cns[0] == id && id != ""
    && |orgs| > 0 && orgs[0] == org && org != ""
    && exists i, j :: 0 <= i < |ous| && 0 <= j < |roles| && ous[i] == roles[j]
  }

  lemma IntersectAt(a: seq<string>, b: seq<string>)
    ensures Intersect(a, b) <==> exists i, j :: 0 <= i < |a| && 0 <= j < |b| && a[i] == b[j]
  {
    if x :| x in a && x in b {
      var i, j :| 0 <= i < |a| && 0 <= j < |b| && a[i] == x && b[j] == x;
    }
    if i, j :| 0 <= i < |a| && 0 <= j < |b| && a[i] == b[j] { assert a[i] in a && b[j] in b; }
  }

  lemma CertificateExactly(c: Context, org: string, removed: set<string>, roles: seq<string>, id: string)
    ensures AuthorizeOrgAndRole(c, org, removed, roles) == Ok(id)
       <==> && c.peer.Some? && c.peer.value.cert.Some? && c.peer.value.cert.value.cn == id
            && Belongs(c.peer.value.cert.value, org, removed, roles)
  {
    if CertSubject(c).Some? { IntersectAt(CertSubject(c).value.ous, roles); }
  }

  /** Exactly whom authorization lets through, in terms of the peer's certificate and the metadata: the
      peer itself, or the client that a peer with a forwarder's role vouches for. */
  lemma AuthorizedExactly(
      c: Context, roles: seq<string>, forwarders: seq<string>, org: string, removed: set<string>, id: string)
    ensures AuthorizeForwardedRoleAndOrg(c, roles, forwarders, org, removed) == Ok(id)
       <==> && c.peer.Some? && c.peer.value.cert.Some?
            && (if Values(c.incoming, "forwarded_cert") == ["true"]
                then Belongs(c.peer.value.cert.value, org, removed, forwarders) && Vouches(c.incoming, org, roles, id)
                else Belongs(c.peer.value.cert.value, org, removed, roles) && c.peer.value.cert.value.cn == id)
  {
    if CertSubject(c).Some? {
      CertificateExactly(c, org, removed, roles, CertSubject(c).value.cn);
      CertificateExactly(c, org, removed, forwarders, CertSubject(c).value.cn);
    }
    IntersectAt(Values(c.incoming, OU), roles);
  }

  /** The ID that is authorized is the one `RemoteNode` reports, with a matching role and organization. */
  lemma AuthorizedIsRemoteNode(c: Context, roles: seq<string>, forwarders: seq<string>, org: string, removed: set<string>)
    requires c.localInfo.None? && AuthorizeForwardedRoleAndOrg(c, roles, forwarders, org, removed).Ok?
    ensures RemoteNode(c).Ok?
    ensures RemoteNode(c).value.id == AuthorizeForwardedRoleAndOrg(c, roles, forwarders, org, removed).value
    ensures RemoteNode(c).value.org == org && Intersect(RemoteNode(c).value.roles, roles)
    ensures RemoteNode(c).value.forwardedBy.Some? <==> IsForwarded(c)
  {
  }

  /** Through a proxy the authorized ID is the client's own. */
  lemma AuthorizedIsOriginalClient(
      c: Context, proxy: Peer, roles: seq<string>, forwarders: seq<string>, org: string, removed: set<string>)
    requires Forward(c).Ok? && c.peer.Some?
    requires AuthorizeForwardedRoleAndOrg(Received(Forward(c).value, proxy), roles, forwarders, org, removed).Ok?
    ensures Named(c.peer.value)
    ensures AuthorizeForwardedRoleAndOrg(Received(Forward(c).value, proxy), roles, forwarders, org, removed)
         == Ok(c.peer.value.cert.value.cn)
  {
    ForwardMarks(c, proxy);
    Carried(c, proxy);
  }
}
