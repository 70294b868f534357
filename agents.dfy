/**
 * Site-scoped agent and printer operations (internal/models/printers.go,
 * internal/models/nickname.go). A request names a tenant and a site by
 * their decimal ids; site -1 stands for every site of the tenant.
 *
 * The tables are sequences of rows. An agent's site edge is kept as a set
 * of site ids, so "the agent has a site with ..." reads the same whether
 * the edge holds one site or several.
 */
module Agents {
  import opened Wrappers
  import Strconv

  datatype Site = Site(id: int, tenantID: Option<int>)
  datatype Agent = Agent(id: string, siteIDs: set<int>, nickname: string)
  datatype Printer = Printer(name: string, ownerID: Option<string>)

  /** The tenant and site a request is scoped to. */
  datatype Scope = Scope(siteID: int, tenantID: int)

  /** Which of the two ids failed strconv.Atoi. */
  datatype ScopeError = InvalidSiteId | InvalidTenantId

  /** The site id is parsed first, then the tenant id; the first failure is the error. */
  function ParseScope(siteParam: string, tenantParam: string): (r: Result<Scope, ScopeError>)
    ensures !Strconv.Atoi(siteParam).Parsed? ==> r == Err(InvalidSiteId)
    ensures Strconv.Atoi(siteParam).Parsed? && !Strconv.Atoi(tenantParam).Parsed? ==> r == Err(InvalidTenantId)
    ensures r.Ok? <==> Strconv.Atoi(siteParam).Parsed? && Strconv.Atoi(tenantParam).Parsed?
    ensures r.Ok? ==> r.value == Scope(Strconv.Atoi(siteParam).value, Strconv.Atoi(tenantParam).value)
  {
    match Strconv.Atoi(siteParam)
    case Parsed(siteID) =>
      (match Strconv.Atoi(tenantParam)
       case Parsed(tenantID) => Ok(Scope(siteID, tenantID))
       case _ => Err(InvalidTenantId))
    case _ => Err(InvalidSiteId)
  }

  /** site.ID(siteID) together with site.HasTenantWith(tenant.ID(tenantID)). */
  predicate SiteOfTenant(sites: seq<Site>, siteID: int, tenantID: int) {
    exists s :: s in sites && s.id == siteID && s.tenantID == Some(tenantID)
  }

  /**
   * agent.HasSiteWith(...): with site -1 any site of the tenant will do;
   * with another site id the site must be that one and belong to the tenant.
   */
  predicate AgentInScope(a: Agent, scope: Scope, sites: seq<Site>) {
    exists sid :: sid in a.siteIDs && SiteOfTenant(sites, sid, scope.tenantID) &&
      (scope.siteID == -1 || sid == scope.siteID)
  }

  /** printer.HasOwnerWith(...): the printer's owning agent is in scope. */
  predicate PrinterInScope(p: Printer, scope: Scope, sites: seq<Site>, agents: seq<Agent>) {
    exists a :: a in agents && p.ownerID == Some(a.id) && AgentInScope(a, scope, sites)
  }

  // ---------------------------------------------------------------------------
  // CountDifferentPrinters
  // ---------------------------------------------------------------------------

  /** The printers the scoped query matches, in table order. */
  function PrintersInScope(printers: seq<Printer>, scope: Scope, sites: seq<Site>, agents: seq<Agent>): (r: seq<Printer>)
    ensures |r| <= |printers|
    ensures forall p :: p in r <==> p in printers && PrinterInScope(p, scope, sites, agents)
  {
    if printers == [] then []
    else
      var rest := PrintersInScope(printers[..|printers| - 1], scope, sites, agents);
      var p := printers[|printers| - 1];
      assert printers == printers[..|printers| - 1] + [p];
      if PrinterInScope(p, scope, sites, agents) then rest + [p] else rest
  }

  /** Select(printer.FieldName).Unique(true): the set of names of the given printers. */
  function Names(ps: seq<Printer>): (r: set<string>)
    ensures forall n :: n in r <==> exists p :: p in ps && p.name == n
  {
    if ps == [] then {}
    else
      var p := ps[|ps| - 1];
      assert ps == ps[..|ps| - 1] + [p];
      Names(ps[..|ps| - 1]) + {p.name}
  }

  /** CountDifferentPrinters: the number of different names among the printers in scope. */
  function CountDifferentPrinters(siteParam: string, tenantParam: string, sites: seq<Site>, agents: seq<Agent>,
                                  printers: seq<Printer>): (r: Result<nat, ScopeError>)
    ensures ParseScope(siteParam, tenantParam).Err? ==> r == Err(ParseScope(siteParam, tenantParam).error)
    ensures r.Ok? <==> ParseScope(siteParam, tenantParam).Ok?
  {
    match ParseScope(siteParam, tenantParam)
    case Ok(scope) => Ok(|Names(PrintersInScope(printers, scope, sites, agents))|)
    case Err(e) => Err(e)
  }

  /** Counting names rather than rows: never more names than printers. */
  lemma {:induction false} NamesAtMostPrinters(ps: seq<Printer>)
    ensures |Names(ps)| <= |ps|
  {
    if ps != [] {
      NamesAtMostPrinters(ps[..|ps| - 1]);
    }
  }

  /** The count is at most the number of printers in scope, and counts a name once however many printers share it. */
  lemma CountAtMostPrintersInScope(siteParam: string, tenantParam: string, sites: seq<Site>, agents: seq<Agent>,
                                   printers: seq<Printer>)
    requires ParseScope(siteParam, tenantParam).Ok?
    ensures var scope := ParseScope(siteParam, tenantParam).value;
      var r := CountDifferentPrinters(siteParam, tenantParam, sites, agents, printers);
      r.Ok? && r.value <= |PrintersInScope(printers, scope, sites, agents)| &&
      r.value == |Names(PrintersInScope(printers, scope, sites, agents))|
  {
    NamesAtMostPrinters(PrintersInScope(printers, ParseScope(siteParam, tenantParam).value, sites, agents));
  }

  /** Site -1 covers the agents on any site of the tenant; another site id only that site, if it is the tenant's. */
  lemma ScopeRule(a: Agent, siteID: int, tenantID: int, sites: seq<Site>)
    ensures AgentInScope(a, Scope(-1, tenantID), sites) <==>
      exists sid :: sid in a.siteIDs && SiteOfTenant(sites, sid, tenantID)
    ensures siteID != -1 ==>
      (AgentInScope(a, Scope(siteID, tenantID), sites) <==> siteID in a.siteIDs && SiteOfTenant(sites, siteID, tenantID))
  {
  }

  /** A site that is not the tenant's matches no agent; so no printer and no count. */
  lemma ForeignSiteCountsNothing(siteID: int, tenantID: int, sites: seq<Site>, agents: seq<Agent>, printers: seq<Printer>)
    requires siteID != -1
    requires !SiteOfTenant(sites, siteID, tenantID)
    ensures PrintersInScope(printers, Scope(siteID, tenantID), sites, agents) == []
    ensures Names(PrintersInScope(printers, Scope(siteID, tenantID), sites, agents)) == {}
  {
  }

  /** Narrowing from the whole tenant to one of its sites never raises the count. */
  lemma SiteCountAtMostTenantCount(siteID: int, tenantID: int, sites: seq<Site>, agents: seq<Agent>, printers: seq<Printer>)
    ensures Names(PrintersInScope(printers, Scope(siteID, tenantID), sites, agents)) <=
            Names(PrintersInScope(printers, Scope(-1, tenantID), sites, agents))
    ensures |Names(PrintersInScope(printers, Scope(siteID, tenantID), sites, agents))| <=
            |Names(PrintersInScope(printers, Scope(-1, tenantID), sites, agents))|
  {
    var narrow := Names(PrintersInScope(printers, Scope(siteID, tenantID), sites, agents));
    var wide := Names(PrintersInScope(printers, Scope(-1, tenantID), sites, agents));
    forall n | n in narrow
      ensures n in wide
    {
      var p :| p in PrintersInScope(printers, Scope(siteID, tenantID), sites, agents) && p.name == n;
      var a :| a in agents && p.ownerID == Some(a.id) && AgentInScope(a, Scope(siteID, tenantID), sites);
      assert AgentInScope(a, Scope(-1, tenantID), sites);
      assert p in PrintersInScope(printers, Scope(-1, tenantID), sites, agents);
    }
    SubsetCardinality(narrow, wide);
  }

  lemma SubsetCardinality<T>(a: set<T>, b: set<T>)
    requires a <= b
    ensures |a| <= |b|
  {
    assert b == a + (b - a);
  }

  // ---------------------------------------------------------------------------
  // SaveNickname
  // ---------------------------------------------------------------------------

  /** One agent row after the scoped UPDATE: the nickname is set iff the id matches and the agent is in scope. */
  function Renamed(a: Agent, agentID: string, nickname: string, scope: Scope, sites: seq<Site>): Agent {
    if a.id == agentID && AgentInScope(a, scope, sites) then a.(nickname := nickname) else a
  }

  /** The agent table after the scoped UPDATE. */
  function RenamedAll(agents: seq<Agent>, agentID: string, nickname: string, scope: Scope, sites: seq<Site>): seq<Agent> {
    seq(|agents|, i requires 0 <= i < |agents| => Renamed(agents[i], agentID, nickname, scope, sites))
  }

  /**
   * The UPDATE touches only nicknames, only of the agent with agentID, and
   * sets it exactly when that agent is in scope; every other row is as before.
   */
  lemma RenamedOnlyChangesTheAgentsNickname(agents: seq<Agent>, agentID: string, nickname: string, scope: Scope,
                                            sites: seq<Site>)
    ensures var r := RenamedAll(agents, agentID, nickname, scope, sites);
      |r| == |agents| &&
      (forall i :: 0 <= i < |r| ==> r[i].id == agents[i].id && r[i].siteIDs == agents[i].siteIDs) &&
      (forall i :: 0 <= i < |r| && agents[i].id != agentID ==> r[i] == agents[i]) &&
      (forall i :: 0 <= i < |r| && agents[i].id == agentID ==>
        (AgentInScope(agents[i], scope, sites) ==> r[i].nickname == nickname) &&
        (!AgentInScope(agents[i], scope, sites) ==> r[i] == agents[i]))
  {
  }

  /** After the UPDATE some row with agentID carries the nickname iff one did before or one was in scope. */
  lemma NicknameSetIff(agents: seq<Agent>, agentID: string, nickname: string, scope: Scope, sites: seq<Site>)
    ensures var r := RenamedAll(agents, agentID, nickname, scope, sites);
      (exists i :: 0 <= i < |r| && r[i].id == agentID && r[i].nickname == nickname) <==>
      (exists i :: 0 <= i < |agents| && agents[i].id == agentID &&
        (AgentInScope(agents[i], scope, sites) || agents[i].nickname == nickname))
  {
    var r := RenamedAll(agents, agentID, nickname, scope, sites);
    if exists i :: 0 <= i < |agents| && agents[i].id == agentID &&
        (AgentInScope(agents[i], scope, sites) || agents[i].nickname == nickname) {
      var i :| 0 <= i < |agents| && agents[i].id == agentID &&
        (AgentInScope(agents[i], scope, sites) || agents[i].nickname == nickname);
      assert r[i].id == agentID && r[i].nickname == nickname;
    }
  }

  /** The agent and site tables. */
  class Inventory {
    var agents: seq<Agent>
    var sites: seq<Site>

    constructor (agents0: seq<Agent>, sites0: seq<Site>)
      ensures agents == agents0 && sites == sites0
    {
      agents := agents0;
      sites := sites0;
    }

    /**
     * SaveNickname: a bad site or tenant id is an error and changes nothing;
     * otherwise the scoped UPDATE sets the nickname of the agent with agentID
     * when it is in scope, and leaves every other row and the sites alone.
     */
    method SaveNickname(agentID: string, nickname: string, siteParam: string, tenantParam: string)
      returns (err: Option<ScopeError>)
      modifies this
      ensures sites == old(sites)
      ensures ParseScope(siteParam, tenantParam).Err? ==>
        err == Some(ParseScope(siteParam, tenantParam).error) && agents == old(agents)
      ensures ParseScope(siteParam, tenantParam).Ok? ==>
        err == None && agents == RenamedAll(old(agents), agentID, nickname, ParseScope(siteParam, tenantParam).value, sites)
    {
      var siteID: int;
      match Strconv.Atoi(siteParam) {
        case Parsed(v) => siteID := v;
        case _ => return Some(InvalidSiteId);
      }
      var tenantID: int;
      match Strconv.Atoi(tenantParam) {
        case Parsed(v) => tenantID := v;
        case _ => return Some(InvalidTenantId);
      }
      // The source's two UPDATE branches (site -1: any site of the tenant; another
      // id: that site) are the two cases of AgentInScope.
      agents := RenamedAll(agents, agentID, nickname, Scope(siteID, tenantID), sites);
      err := None;
    }
  }
}
