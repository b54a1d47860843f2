// The agent registry: two dictionaries that must agree
// (telegram_events: agent_registry.py, agent_registry_support.py).
module AgentRegistry {

  import opened Wrappers
  import opened PyText

  datatype Registration = Registration(slug: string, mcpUrl: string, eventsUrl: string)

  datatype Status = Registered | Duplicate | Remapped | Conflict

  datatype RegistrationResult = RegistrationResult(
    status: Status,
    slug: string,
    mcpUrl: string,
    eventsUrl: string,
    previousMcpUrl: Option<string>,
    previousEventsUrl: Option<string>,
    conflictingSlug: Option<string>)

  function DropSlashes(s: string): (r: string)
    ensures r <= s
    ensures r == "" || r[|r| - 1] != '/'
    ensures forall i :: |r| <= i < |s| ==> s[i] == '/'
  {
    if s != "" && s[|s| - 1] == '/' then DropSlashes(s[..|s| - 1]) else s
  }

  // An empty result is the ValueError of the Python normalisers.
  function NormalizeSlug(s: string): string
  {
    Strip(s)
  }

  function NormalizeMcpUrl(s: string): string
  {
    DropSlashes(Strip(s))
  }

  const MCP_SUFFIX := "/mcp"

  function EventsUrl(mcpUrl: string): string
  {
    (if |mcpUrl| >= |MCP_SUFFIX| && mcpUrl[|mcpUrl| - |MCP_SUFFIX|..] == MCP_SUFFIX
     then mcpUrl[..|mcpUrl| - |MCP_SUFFIX|] else mcpUrl) + "/events/telegram"
  }

  // The suffix /mcp gives way to /events/telegram, which is otherwise appended.
  lemma EventsUrlMeaning(base: string)
    ensures EventsUrl(base + "/mcp") == base + "/events/telegram"
    ensures |base| < 4 || base[|base| - 4..] != "/mcp" ==> EventsUrl(base) == base + "/events/telegram"
  {
    var url := base + "/mcp";
    assert url[|url| - 4..] == "/mcp" && url[..|url| - 4] == base;
  }

  datatype Maps = Maps(bySlug: map<string, Registration>, byMcpUrl: map<string, string>)

  // Slug owns url exactly when url maps to slug, and stored rows match their keys.
  ghost predicate Inverse(m: Maps)
  {
    && (forall s :: s in m.bySlug ==> m.bySlug[s].slug == s && m.bySlug[s].eventsUrl == EventsUrl(m.bySlug[s].mcpUrl))
    && (forall s :: s in m.bySlug ==> m.bySlug[s].mcpUrl in m.byMcpUrl && m.byMcpUrl[m.bySlug[s].mcpUrl] == s)
    && (forall u :: u in m.byMcpUrl ==> m.byMcpUrl[u] in m.bySlug && m.bySlug[m.byMcpUrl[u]].mcpUrl == u)
  }

  // ---------- what one registration does to the maps ----------

  function StatusOf(m: Maps, s: string, u: string): Status
  {
    if u in m.byMcpUrl && m.byMcpUrl[u] != s then Conflict
    else if s !in m.bySlug then Registered
    else if m.bySlug[s].mcpUrl == u then Duplicate
    else Remapped
  }

  function AfterRegister(m: Maps, s: string, u: string): Maps
  {
    match StatusOf(m, s, u)
    case Conflict => m
    case Duplicate => m
    case Registered => Maps(m.bySlug[s := Registration(s, u, EventsUrl(u))], m.byMcpUrl[u := s])
    case Remapped =>
      Maps(m.bySlug[s := Registration(s, u, EventsUrl(u))], (m.byMcpUrl - {m.bySlug[s].mcpUrl})[u := s])
  }

  function RunAll(calls: seq<(string, string)>): Maps
  {
    if calls == [] then Maps(map[], map[])
    else AfterRegister(RunAll(calls[..|calls| - 1]), calls[|calls| - 1].0, calls[|calls| - 1].1)
  }

  lemma StepKeepsInverse(m: Maps, s: string, u: string)
    requires Inverse(m)
    ensures Inverse(AfterRegister(m, s, u))
  {
  }

  // After any sequence of registrations the maps are mutual inverses.
  lemma {:induction false} AlwaysInverse(calls: seq<(string, string)>)
    ensures Inverse(RunAll(calls))
  {
    if calls != [] {
      AlwaysInverse(calls[..|calls| - 1]);
      StepKeepsInverse(RunAll(calls[..|calls| - 1]), calls[|calls| - 1].0, calls[|calls| - 1].1);
    }
  }

  // No slug owns two urls and no url has two owners.
  lemma OwnersUnique(calls: seq<(string, string)>, s: string, t: string)
    requires var m := RunAll(calls); s in m.bySlug && t in m.bySlug && m.bySlug[s].mcpUrl == m.bySlug[t].mcpUrl
    ensures s == t
  {
    AlwaysInverse(calls);
  }

  // A url changes hands, or loses its owner, only by that owner's own remap;
  // unless it conflicts, a call leaves the slug owning the url it asked for, and
  // if it conflicts it changes nothing.
  lemma OwnershipMoves(m: Maps, s: string, u: string, url: string)
    requires Inverse(m)
    ensures var after, status := AfterRegister(m, s, u), StatusOf(m, s, u);
            && (url in m.byMcpUrl && (url in after.byMcpUrl ==> after.byMcpUrl[url] != m.byMcpUrl[url]) ==>
                  status == Remapped && m.byMcpUrl[url] == s && m.bySlug[s].mcpUrl == url)
            && (status != Conflict ==> u in after.byMcpUrl && after.byMcpUrl[u] == s && after.bySlug[s].mcpUrl == u)
            && (status == Conflict ==> after == m)
            && (forall t :: t != s && t in m.bySlug ==> t in after.bySlug && after.bySlug[t] == m.bySlug[t])
  {
    StepKeepsInverse(m, s, u);
  }

  // get_events_url_for_mcp_url; a blank url is the ValueError.
  function EventsUrlOf(m: Maps, url: string): Result<Option<string>, string>
  {
    var u := NormalizeMcpUrl(url);
    if u == "" then Err("telegram_mcp_url is required")
    else Ok(if u in m.byMcpUrl then Some(EventsUrl(u)) else None)
  }

  // ---------- the registry ----------

  class Registry {
    var bySlug: map<string, Registration>
    var byMcpUrl: map<string, string>

    ghost function State(): Maps
      reads this
    {
      Maps(bySlug, byMcpUrl)
    }

    ghost predicate Valid()
      reads this
    {
      Inverse(State())
    }

    constructor ()
      ensures Valid() && State() == Maps(map[], map[])
    {
      bySlug, byMcpUrl := map[], map[];
    }

    method Register(agentSlug: string, telegramMcpUrl: string) returns (r: Result<RegistrationResult, string>)
      requires Valid()
      modifies this
      ensures Valid()
      ensures r.Err? <==> NormalizeSlug(agentSlug) == "" || NormalizeMcpUrl(telegramMcpUrl) == ""
      ensures r.Err? ==> State() == old(State())
      ensures r.Ok? ==>
                var s, u := NormalizeSlug(agentSlug), NormalizeMcpUrl(telegramMcpUrl);
                && r.value.slug == Strip(agentSlug) == s && r.value.mcpUrl == u && r.value.eventsUrl == EventsUrl(u)
                && r.value.status == StatusOf(old(State()), s, u)
                && (r.value.status == Conflict <==> u in old(byMcpUrl) && old(byMcpUrl)[u] != s)
                && (r.value.status == Registered <==> u !in old(byMcpUrl) && s !in old(bySlug))
                && (r.value.status == Duplicate <==> s in old(bySlug) && old(bySlug)[s].mcpUrl == u)
                && State() == AfterRegister(old(State()), s, u)
                && r.value.conflictingSlug == (if r.value.status == Conflict then Some(old(byMcpUrl)[u]) else None)
                && r.value.previousMcpUrl == (if r.value.status == Remapped then Some(old(bySlug)[s].mcpUrl) else None)
                && r.value.previousEventsUrl == (if r.value.status == Remapped then Some(old(bySlug)[s].eventsUrl) else None)
    {
      var s, u := NormalizeSlug(agentSlug), NormalizeMcpUrl(telegramMcpUrl);
      if s == "" {
        return Err("agent_slug is required");
      }
      if u == "" {
        return Err("telegram_mcp_url is required");
      }
      StepKeepsInverse(State(), s, u);
      if u in byMcpUrl && byMcpUrl[u] != s {
        return Ok(RegistrationResult(Conflict, s, u, EventsUrl(u), None, None, Some(byMcpUrl[u])));
      }
      if s !in bySlug {
        bySlug := bySlug[s := Registration(s, u, EventsUrl(u))];
        byMcpUrl := byMcpUrl[u := s];
        return Ok(RegistrationResult(Registered, s, u, EventsUrl(u), None, None, None));
      }
      var existing := bySlug[s];
      if existing.mcpUrl == u {
        return Ok(RegistrationResult(Duplicate, s, u, EventsUrl(u), None, None, None));
      }
      byMcpUrl := byMcpUrl - {existing.mcpUrl};
      bySlug := bySlug[s := Registration(s, u, EventsUrl(u))];
      byMcpUrl := byMcpUrl[u := s];
      return Ok(RegistrationResult(Remapped, s, u, EventsUrl(u), Some(existing.mcpUrl), Some(existing.eventsUrl), None));
    }

    // The lookup behind the url map never misses the slug map.
    method EventsUrlForMcpUrl(telegramMcpUrl: string) returns (r: Result<Option<string>, string>)
      requires Valid()
      ensures r == EventsUrlOf(State(), telegramMcpUrl)
    {
      var u := NormalizeMcpUrl(telegramMcpUrl);
      if u == "" {
        return Err("telegram_mcp_url is required");
      }
      if u !in byMcpUrl {
        return Ok(None);
      }
      var slug := byMcpUrl[u];
      assert slug in bySlug && bySlug[slug].mcpUrl == u;
      return Ok(Some(bySlug[slug].eventsUrl));
    }
  }

  // ---------- urls that are not found again ----------

  predicate SlashesFrom(t: string, n: nat)
  {
    forall j :: n <= j < |t| ==> t[j] == '/'
  }

  predicate SlashesAfterBlank(t: string)
  {
    exists i :: 0 <= i < |t| && IsSpace(t[i]) && SlashesFrom(t, i + 1)
  }

  // The url, once stripped, has a blank standing directly before final slashes.
  predicate BlankBeforeSlashes(url: string)
  {
    SlashesAfterBlank(Strip(url))
  }

  // Cutting the final slashes off leaves a blank at the end if one stood there.
  lemma BlankAtCut(t: string, n: nat)
    requires n <= |t| && (forall j :: n <= j < |t| ==> t[j] == '/') && (n > 0 ==> t[n - 1] != '/')
    ensures n > 0 && IsSpace(t[n - 1]) <==> SlashesAfterBlank(t)
  {
    assert n > 0 && IsSpace(t[n - 1]) ==> SlashesFrom(t, n);
    assert forall i :: 0 <= i < |t| && IsSpace(t[i]) && SlashesFrom(t, i + 1) ==> i == n - 1;
  }

  lemma SlashesLeaveBlank(url: string)
    ensures Trimmed(NormalizeMcpUrl(url)) <==> !BlankBeforeSlashes(url)
  {
    var t := Strip(url);
    var u := DropSlashes(t);
    assert u == t[..|u|];
    assert u != "" ==> u[|u| - 1] == t[|u| - 1];
    BlankAtCut(t, |u|);
  }

  lemma StripShortens(s: string)
    requires !Trimmed(s)
    ensures |Strip(s)| < |s|
  {
    var rest := s[LeadingBlanks(s)..];
    assert |Strip(s)| <= |rest|;
    assert LeadingBlanks(s) == 0 ==> rest == s;
    assert Strip(s) == rest[..|Strip(s)|];
  }

  lemma SecondNormalisation(u: string)
    ensures Trimmed(u) && (u == "" || u[|u| - 1] != '/') ==> NormalizeMcpUrl(u) == u
    ensures !Trimmed(u) ==> |NormalizeMcpUrl(u)| < |u|
  {
    if !Trimmed(u) {
      StripShortens(u);
    }
  }

  // Normalising a stored url again finds the same entry exactly when no blank
  // stands directly before the final slashes of the given url.
  lemma NormalizeUrlIdempotent(url: string)
    ensures NormalizeMcpUrl(NormalizeMcpUrl(url)) == NormalizeMcpUrl(url) <==> !BlankBeforeSlashes(url)
  {
    SlashesLeaveBlank(url);
    SecondNormalisation(NormalizeMcpUrl(url));
  }

  // A url that ends in a blank has no suffix to lose.
  lemma BlankEndKeepsSuffix(u: string)
    requires u != "" && IsSpace(u[|u| - 1])
    ensures EventsUrl(u) == u + "/events/telegram"
  {
    if |u| >= |MCP_SUFFIX| {
      assert u[|u| - |MCP_SUFFIX|..][3] == u[|u| - 1];
      assert MCP_SUFFIX[3] == 'p' && u[|u| - 1] != 'p';
    }
  }

  lemma EventsUrlLength(u: string)
    ensures |EventsUrl(u)| <= |u| + |"/events/telegram"|
  {
  }

  // After a registration, asking for the url it reported yields the events url
  // it reported exactly when no blank stands before the final slashes. When one
  // does, the answer is nothing, or the entry of another url.
  lemma ReportedUrlFoundIff(m: Maps, slug: string, url: string)
    requires Inverse(m) && NormalizeMcpUrl(url) != ""
    ensures var u := NormalizeMcpUrl(url);
            var after := AfterRegister(m, slug, u);
            && (EventsUrlOf(after, u) == Ok(Some(EventsUrl(u))) <==> !BlankBeforeSlashes(url))
            && (BlankBeforeSlashes(url) && NormalizeMcpUrl(u) !in after.byMcpUrl ==>
                  EventsUrlOf(after, u).Err? || EventsUrlOf(after, u) == Ok(None))
  {
    var u := NormalizeMcpUrl(url);
    OwnershipMoves(m, slug, u, u);
    SlashesLeaveBlank(url);
    SecondNormalisation(u);
    if BlankBeforeSlashes(url) {
      assert u[0] == Strip(url)[0] && IsSpace(u[|u| - 1]);
      BlankEndKeepsSuffix(u);
      EventsUrlLength(NormalizeMcpUrl(u));
    }
  }

  // A blank before the final slash: the url is stored under a key that no
  // later lookup of that key can find.
  lemma BlankBeforeSlash()
    ensures NormalizeMcpUrl("a /") == "a " && NormalizeMcpUrl("a ") == "a" && BlankBeforeSlashes("a /")
  {
    assert Trimmed("a /");
    assert "a /"[..2] == "a ";
    assert LeadingBlanks("a ") == 0;
    assert "a "[..1] == "a";
    assert RStrip("a ") == RStrip("a") == "a";
    assert Strip("a /") == "a /" && IsSpace("a /"[1]) && SlashesFrom("a /", 2);
  }

  // Asking for that key may find the entry of another agent.
  lemma OtherAgentsEntry()
    ensures var m := RunAll([("x", NormalizeMcpUrl("a")), ("y", NormalizeMcpUrl("a /"))]);
            && "y" in m.bySlug && m.bySlug["y"].mcpUrl == "a "
            && EventsUrlOf(m, m.bySlug["y"].mcpUrl) == Ok(Some(EventsUrl("a")))
            && "a" in m.byMcpUrl && m.byMcpUrl["a"] == "x"
  {
    BlankBeforeSlash();
    assert Trimmed("a") && NormalizeMcpUrl("a") == "a";
    var calls := [("x", "a"), ("y", "a ")];
    assert calls[..1] == [("x", "a")] && calls[..1][..0] == [];
    var first := AfterRegister(Maps(map[], map[]), "x", "a");
    assert RunAll(calls[..1]) == first;
    assert "a" != "a ";
    assert RunAll(calls) == AfterRegister(first, "y", "a ");
  }
}
