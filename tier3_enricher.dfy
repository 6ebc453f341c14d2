/** Tier-3 enrichment: fills WEBSITE and CNAE only where they are empty,
    from a search oracle, after a blacklist test and a URL-liveness oracle.
    A non-empty cell is never overwritten. */
module Tier3Enricher {
  import opened Wrappers
  import opened Text
  import opened Frames

  const WebsiteColumn: string := "WEBSITE"
  const WebsiteSourceColumn: string := "WEBSITE_SOURCE"
  const CnaeColumn: string := "CNAE"
  const CnaeSourceColumn: string := "CNAE_SOURCE"
  const RazonSocialColumn: string := "RAZON_SOCIAL"
  const CifColumn: string := "CIF"

  /** The columns enrichment may write. */
  predicate IsEnrichedColumn(c: string) {
    c == WebsiteColumn || c == WebsiteSourceColumn || c == CnaeColumn || c == CnaeSourceColumn
  }

  // ---------------------------------------------------------------------
  // Rules and oracles
  // ---------------------------------------------------------------------

  /** A piece of a `str.format` query template with the placeholders
      `{razon_social}` and `{cif}`. */
  datatype Piece = Lit(text: string) | RazonSocial | CifField

  type Template = seq<Piece>

  const DefaultWebsiteTemplate: Template := [RazonSocial, Lit(" "), CifField]
  const DefaultCnaeTemplate: Template := [RazonSocial, Lit(" "), CifField, Lit(" CNAE")]

  /** The `website` section: `enabled`, `query_template`, `http_timeout` and
      `domains_blacklist`. */
  datatype WebsiteRules = WebsiteRules(enabled: bool, queryTemplate: Template, httpTimeout: real, domainsBlacklist: seq<string>)

  /** The `cnae` section: `enabled` and `query_template`. */
  datatype CnaeRules = CnaeRules(enabled: bool, queryTemplate: Template)

  datatype Tier3Rules = Tier3Rules(website: WebsiteRules, cnae: CnaeRules)

  const DefaultTier3Rules: Tier3Rules :=
    Tier3Rules(WebsiteRules(true, DefaultWebsiteTemplate, 3.0, []), CnaeRules(true, DefaultCnaeTemplate))

  /** The search and HTTP clients: a search answers a URL or code (or
      nothing), and the liveness check answers for a URL and a timeout. A
      client that raises is a client that answers nothing. */
  datatype Clients = Clients(
    searchWebsite: string -> Option<string>,
    searchCnae: string -> Option<string>,
    isUrlAlive: (string, real) -> bool)

  // ---------------------------------------------------------------------
  // Helpers
  // ---------------------------------------------------------------------

  /** `template.format(razon_social=row.get("RAZON_SOCIAL", ""), cif=row.get("CIF", ""))`. */
  function Render(tpl: Template, row: Row): (s: string)
    ensures tpl == [] ==> s == []
    ensures |tpl| == 1 && tpl[0].Lit? ==> s == tpl[0].text
    ensures tpl == [RazonSocial] ==> s == PyStr(GetOr(row, RazonSocialColumn, Str("")))
    ensures tpl == [CifField] ==> s == PyStr(GetOr(row, CifColumn, Str("")))
  {
    if tpl == [] then []
    else
      var head := match tpl[0]
        case Lit(text) => text
        case RazonSocial => PyStr(GetOr(row, RazonSocialColumn, Str("")))
        case CifField => PyStr(GetOr(row, CifColumn, Str("")));
      head + Render(tpl[1..], row)
  }

  /** Rendering works piece by piece: a template split in two renders as
      the two renderings joined. */
  lemma {:induction false} RenderAppend(a: Template, b: Template, row: Row)
    ensures Render(a + b, row) == Render(a, row) + Render(b, row)
    decreases |a|
  {
    if a != [] {
      assert (a + b)[0] == a[0] && (a + b)[1..] == a[1..] + b;
      RenderAppend(a[1..], b, row);
    } else {
      assert a + b == b;
    }
  }

  /** Only the placeholders read the row: a template of literals renders
      the same for every row. */
  lemma {:induction false} LiteralsIgnoreRow(tpl: Template, r1: Row, r2: Row)
    requires forall i :: 0 <= i < |tpl| ==> tpl[i].Lit?
    ensures Render(tpl, r1) == Render(tpl, r2)
    decreases |tpl|
  {
    if tpl != [] {
      LiteralsIgnoreRow(tpl[1..], r1, r2);
    }
  }

  /** The default website query is the company name, a space and the CIF. */
  lemma DefaultWebsiteQuery(row: Row)
    ensures Render(DefaultWebsiteTemplate, row)
         == PyStr(GetOr(row, RazonSocialColumn, Str(""))) + " " + PyStr(GetOr(row, CifColumn, Str("")))
  {
    var t := DefaultWebsiteTemplate;
    assert t == [RazonSocial] + [Lit(" ")] + [CifField];
    RenderAppend([RazonSocial] + [Lit(" ")], [CifField], row);
    RenderAppend([RazonSocial], [Lit(" ")], row);
  }

  function Query(tpl: Template, row: Row): string {
    Strip(Render(tpl, row))
  }

  /** `_normalize_url`: strip, keep an empty or already http(s) URL, and
      otherwise prepend "https://". */
  function NormalizeUrl(url: string): (r: string)
    ensures r == [] <==> Strip(url) == []
    ensures r != [] ==> StartsWith(r, "http://") || StartsWith(r, "https://")
    ensures r != [] ==> !IsSpace(r[|r| - 1])
    ensures StartsWith(Strip(url), "http://") || StartsWith(Strip(url), "https://") ==> r == Strip(url)
    ensures Strip(url) != [] && !StartsWith(Strip(url), "http://") && !StartsWith(Strip(url), "https://")
            ==> r == "https://" + Strip(url)
  {
    var u := Strip(url);
    if u == [] then u
    else if StartsWith(u, "http://") || StartsWith(u, "https://") then u
    else "https://" + u
  }

  /** Index of the first '/', '?' or '#', or the length when there is none. */
  function AuthorityEnd(s: string): (k: nat)
    ensures k <= |s|
    ensures forall i :: 0 <= i < k ==> s[i] != '/' && s[i] != '?' && s[i] != '#'
  {
    if s == [] || s[0] == '/' || s[0] == '?' || s[0] == '#' then 0 else 1 + AuthorityEnd(s[1..])
  }

  predicate IsTabOrNewline(ch: char) { ch == '\t' || ch == '\r' || ch == '\n' }

  /** `urlsplit` first removes every tab, carriage return and newline. */
  function DropTabsAndNewlines(s: string): (r: string)
    ensures |r| <= |s|
    ensures forall i :: 0 <= i < |r| ==> !IsTabOrNewline(r[i])
    ensures (forall i :: 0 <= i < |s| ==> !IsTabOrNewline(s[i])) ==> r == s
  {
    if s == [] then []
    else (if IsTabOrNewline(s[0]) then [] else [s[0]]) + DropTabsAndNewlines(s[1..])
  }

  /** A text without '/', '?' or '#' is all authority. */
  lemma {:induction false} AuthorityOfHost(s: string)
    requires forall i :: 0 <= i < |s| ==> s[i] != '/' && s[i] != '?' && s[i] != '#'
    ensures AuthorityEnd(s) == |s|
  {
    if s != [] {
      AuthorityOfHost(s[1..]);
    }
  }

  /** `urlparse(u).netloc` for the URLs `_normalize_url` produces: the text
      after "scheme://" up to the first '/', '?' or '#', once tabs and
      newlines are dropped (the scheme prefix holds none). `urlparse` raises
      `ValueError` ("Invalid IPv6 URL"), here `None`, when that text holds a
      '[' without a ']' or a ']' without a '['. */
  function Netloc(u: string): (n: Option<string>)
    ensures n.Some? ==> ('[' in n.value <==> ']' in n.value)
    ensures n.Some? ==> forall i :: 0 <= i < |n.value| ==> !IsTabOrNewline(n.value[i]) && n.value[i] != '/'
  {
    var rest := DropTabsAndNewlines(if StartsWith(u, "https://") then u[8..] else if StartsWith(u, "http://") then u[7..] else []);
    var netloc := rest[..AuthorityEnd(rest)];
    if ('[' in netloc) != (']' in netloc) then None else Some(netloc)
  }

  /** Some lower-cased entry is a substring of `domain`. */
  function AnyEntryIn(entries: seq<string>, domain: string): (b: bool)
    ensures b <==> exists i :: 0 <= i < |entries| && Contains(domain, Lower(entries[i]))
  {
    if entries == [] then false
    else if Contains(domain, Lower(entries[0])) then true
    else
      var rest := AnyEntryIn(entries[1..], domain);
      assert forall i :: 1 <= i < |entries| ==> entries[i] == entries[1..][i - 1];
      rest
  }

  /** `_is_blacklisted_domain`: the `ValueError` of `urlparse` is swallowed
      and the URL is then not blacklisted. */
  function IsBlacklisted(rules: WebsiteRules, url: string): (b: bool)
    ensures rules.domainsBlacklist == [] ==> !b
    ensures Netloc(NormalizeUrl(url)).None? ==> !b
    ensures b <==> Netloc(NormalizeUrl(url)).Some?
                   && (exists i :: 0 <= i < |rules.domainsBlacklist|
                         && Contains(Lower(Netloc(NormalizeUrl(url)).value), Lower(rules.domainsBlacklist[i])))
  {
    if rules.domainsBlacklist == [] then false
    else
      match Netloc(NormalizeUrl(url))
      case None => false
      case Some(netloc) => AnyEntryIn(rules.domainsBlacklist, Lower(netloc))
  }

  /** `min(http_timeout, 5.0)`. */
  function Timeout(rules: WebsiteRules): (t: real)
    ensures t <= 5.0 && t <= rules.httpTimeout
    ensures t == 5.0 || t == rules.httpTimeout
  {
    if rules.httpTimeout < 5.0 then rules.httpTimeout else 5.0
  }

  /** `re.match(r"^\d{4,5}$", s)`: four or five digits, and `$` also takes a
      trailing newline. */
  predicate IsCnaeCode(s: string) {
    (4 <= |s| <= 5 && AllDigits(s))
    || (5 <= |s| <= 6 && s[|s| - 1] == '\n' && AllDigits(s[..|s| - 1]))
  }

  // ---------------------------------------------------------------------
  // enrich_website
  // ---------------------------------------------------------------------

  /** The decision for one row with an empty WEBSITE: the URL to store, if
      the query is non-empty, the search answers, the domain is not
      blacklisted and the URL is alive. */
  function FoundWebsite(rules: WebsiteRules, c: Clients, row: Row): (w: Option<string>)
    ensures w.Some? <==> (
      Query(rules.queryTemplate, row) != []
      && c.searchWebsite(Query(rules.queryTemplate, row)).Some?
      && c.searchWebsite(Query(rules.queryTemplate, row)).value != []
      && !IsBlacklisted(rules, c.searchWebsite(Query(rules.queryTemplate, row)).value)
      && c.isUrlAlive(c.searchWebsite(Query(rules.queryTemplate, row)).value, Timeout(rules)))
    ensures w.Some? ==> w.value == NormalizeUrl(c.searchWebsite(Query(rules.queryTemplate, row)).value)
  {
    var q := Query(rules.queryTemplate, row);
    if q == [] then None
    else match c.searchWebsite(q)
      case None => None
      case Some(url) =>
        if url == [] || IsBlacklisted(rules, url) || !c.isUrlAlive(url, Timeout(rules)) then None
        else Some(NormalizeUrl(url))
  }

  /** One loop step of `enrich_website`. */
  function WebsiteStep(rules: WebsiteRules, c: Clients, row: Row): (r: Row)
    ensures !IsEmpty(Get(row, WebsiteColumn)) ==> r == row
    ensures forall k :: k in row && k != WebsiteColumn && k != WebsiteSourceColumn ==> k in r && r[k] == row[k]
    ensures r.Keys == row.Keys || r.Keys == row.Keys + {WebsiteColumn, WebsiteSourceColumn}
  {
    if !IsEmpty(Get(row, WebsiteColumn)) then row
    else match FoundWebsite(rules, c, row)
      case None => row
      case Some(url) => row[WebsiteColumn := Str(url)][WebsiteSourceColumn := Str("search")]
  }

  lemma WebsiteStepCases(rules: WebsiteRules, c: Clients, row: Row)
    ensures !IsEmpty(Get(row, WebsiteColumn)) ==> WebsiteStep(rules, c, row) == row
    ensures IsEmpty(Get(row, WebsiteColumn)) && FoundWebsite(rules, c, row).None? ==> WebsiteStep(rules, c, row) == row
    ensures IsEmpty(Get(row, WebsiteColumn)) && FoundWebsite(rules, c, row).Some? ==>
      WebsiteStep(rules, c, row)
      == row[WebsiteColumn := Str(FoundWebsite(rules, c, row).value)][WebsiteSourceColumn := Str("search")]
  {
  }

  /** `enrich_website` as a function of the table. */
  function WebsiteEnriched(rules: WebsiteRules, c: Clients, t: Table): (r: Table)
    ensures |r.rows| == |t.rows|
    ensures r.columns == AddColumn(t, WebsiteSourceColumn, Null).columns
  {
    var init := AddColumn(t, WebsiteSourceColumn, Null);
    if !rules.enabled then init
    else Table(init.columns, seq(|init.rows|, i requires 0 <= i < |init.rows| => WebsiteStep(rules, c, init.rows[i])))
  }

  /** `enrich_website`: add WEBSITE_SOURCE, return early when disabled, then
      try to fill every row whose WEBSITE is empty. */
  /** The body of the `enrich_website` loop for one row. */
  method EnrichWebsiteRow(rules: WebsiteRules, c: Clients, row: Row) returns (r: Row)
    ensures r == WebsiteStep(rules, c, row)
  {
    WebsiteStepCases(rules, c, row);
    r := row;
    if IsEmpty(Get(row, WebsiteColumn)) {
      var found := FoundWebsite(rules, c, row);
      if found.Some? {
        r := row[WebsiteColumn := Str(found.value)][WebsiteSourceColumn := Str("search")];
      }
    }
  }

  method EnrichWebsite(rules: WebsiteRules, c: Clients, t: Table) returns (r: Table)
    requires WebsiteColumn in t.columns
    ensures r == WebsiteEnriched(rules, c, t)
  {
    var init := AddColumn(t, WebsiteSourceColumn, Null);
    if !rules.enabled {
      return init;
    }
    var rows := init.rows;
    var i := 0;
    while i < |rows|
      invariant 0 <= i <= |rows| == |init.rows|
      invariant forall j :: 0 <= j < i ==> rows[j] == WebsiteStep(rules, c, init.rows[j])
      invariant forall j :: i <= j < |rows| ==> rows[j] == init.rows[j]
    {
      var row := EnrichWebsiteRow(rules, c, rows[i]);
      rows := rows[i := row];
      i := i + 1;
    }
    r := Table(init.columns, rows);
  }

  // ---------------------------------------------------------------------
  // enrich_cnae
  // ---------------------------------------------------------------------

  /** The decision for one row with an empty CNAE: the stripped code, if the
      query is non-empty, the search answers and the code is 4 or 5 digits. */
  function FoundCnae(rules: CnaeRules, c: Clients, row: Row): (code: Option<string>)
    ensures code.Some? ==> 4 <= |code.value| <= 5 && AllDigits(code.value)
    ensures code.Some? <==> (
      Query(rules.queryTemplate, row) != []
      && c.searchCnae(Query(rules.queryTemplate, row)).Some?
      && c.searchCnae(Query(rules.queryTemplate, row)).value != []
      && IsCnaeCode(Strip(c.searchCnae(Query(rules.queryTemplate, row)).value)))
  {
    var q := Query(rules.queryTemplate, row);
    if q == [] then None
    else match c.searchCnae(q)
      case None => None
      case Some(code) =>
        if code == [] then None
        else
          var s := Strip(code);
          if IsCnaeCode(s) then
            StrippedCnaeCode(s);
            Some(s)
          else None
  }

  /** A stripped string has no trailing newline, so the regex's `$` accepts
      exactly four or five digits. */
  lemma StrippedCnaeCode(s: string)
    requires IsCnaeCode(s) && (s == [] || !IsSpace(s[|s| - 1]))
    ensures 4 <= |s| <= 5 && AllDigits(s)
  {
  }

  /** One loop step of `enrich_cnae`. */
  function CnaeStep(rules: CnaeRules, c: Clients, row: Row): (r: Row)
    ensures !IsEmpty(Get(row, CnaeColumn)) ==> r == row
    ensures forall k :: k in row && k != CnaeColumn && k != CnaeSourceColumn ==> k in r && r[k] == row[k]
    ensures r.Keys == row.Keys || r.Keys == row.Keys + {CnaeColumn, CnaeSourceColumn}
  {
    if !IsEmpty(Get(row, CnaeColumn)) then row
    else match FoundCnae(rules, c, row)
      case None => row
      case Some(code) => row[CnaeColumn := Str(code)][CnaeSourceColumn := Str("search")]
  }

  lemma CnaeStepCases(rules: CnaeRules, c: Clients, row: Row)
    ensures !IsEmpty(Get(row, CnaeColumn)) ==> CnaeStep(rules, c, row) == row
    ensures IsEmpty(Get(row, CnaeColumn)) && FoundCnae(rules, c, row).None? ==> CnaeStep(rules, c, row) == row
    ensures IsEmpty(Get(row, CnaeColumn)) && FoundCnae(rules, c, row).Some? ==>
      CnaeStep(rules, c, row)
      == row[CnaeColumn := Str(FoundCnae(rules, c, row).value)][CnaeSourceColumn := Str("search")]
  {
  }


  /** `enrich_cnae` as a function of the table. */
  function CnaeEnriched(rules: CnaeRules, c: Clients, t: Table): (r: Table)
    ensures |r.rows| == |t.rows|
    ensures r.columns == AddColumn(t, CnaeSourceColumn, Null).columns
  {
    var init := AddColumn(t, CnaeSourceColumn, Null);
    if !rules.enabled then init
    else Table(init.columns, seq(|init.rows|, i requires 0 <= i < |init.rows| => CnaeStep(rules, c, init.rows[i])))
  }

  /** `enrich_cnae`: add CNAE_SOURCE, return early when disabled, then try to
      fill every row whose CNAE is empty. */
  /** The body of the `enrich_cnae` loop for one row. */
  method EnrichCnaeRow(rules: CnaeRules, c: Clients, row: Row) returns (r: Row)
    ensures r == CnaeStep(rules, c, row)
  {
    CnaeStepCases(rules, c, row);
    r := row;
    if IsEmpty(Get(row, CnaeColumn)) {
      var found := FoundCnae(rules, c, row);
      if found.Some? {
        r := row[CnaeColumn := Str(found.value)][CnaeSourceColumn := Str("search")];
      }
    }
  }

  method EnrichCnae(rules: CnaeRules, c: Clients, t: Table) returns (r: Table)
    requires CnaeColumn in t.columns
    ensures r == CnaeEnriched(rules, c, t)
  {
    var init := AddColumn(t, CnaeSourceColumn, Null);
    if !rules.enabled {
      return init;
    }
    var rows := init.rows;
    var i := 0;
    while i < |rows|
      invariant 0 <= i <= |rows| == |init.rows|
      invariant forall j :: 0 <= j < i ==> rows[j] == CnaeStep(rules, c, init.rows[j])
      invariant forall j :: i <= j < |rows| ==> rows[j] == init.rows[j]
    {
      var row := EnrichCnaeRow(rules, c, rows[i]);
      rows := rows[i := row];
      i := i + 1;
    }
    r := Table(init.columns, rows);
  }

  // ---------------------------------------------------------------------
  // process_missing_only
  // ---------------------------------------------------------------------

  /** The DataFrame handed to `process_missing_only`, which adds the WEBSITE
      and CNAE columns to it in place. */
  class Frame {
    var table: Table

    constructor(t: Table)
      ensures table == t
    {
      table := t;
    }
  }

  /** WEBSITE and CNAE added as None where absent. */
  function WithTargetColumns(t: Table): (r: Table)
    ensures |r.rows| == |t.rows|
    ensures WebsiteColumn in r.columns && CnaeColumn in r.columns
    ensures WellFormed(t) ==> WellFormed(r)
  {
    AddColumn(AddColumn(t, WebsiteColumn, Null), CnaeColumn, Null)
  }

  /** `process_missing_only` as a function of the table. */
  function MissingOnlyProcessed(rules: Tier3Rules, c: Clients, t: Table): Table {
    CnaeEnriched(rules.cnae, c, WebsiteEnriched(rules.website, c, WithTargetColumns(t)))
  }

  /** `process_missing_only`: the caller's frame gains WEBSITE and CNAE
      columns, and the result is the website pass followed by the CNAE pass. */
  method ProcessMissingOnly(rules: Tier3Rules, c: Clients, f: Frame) returns (r: Table)
    modifies f
    ensures f.table == WithTargetColumns(old(f.table))
    ensures r == MissingOnlyProcessed(rules, c, old(f.table))
  {
    if WebsiteColumn !in f.table.columns {
      f.table := AddColumn(f.table, WebsiteColumn, Null);
    }
    if CnaeColumn !in f.table.columns {
      f.table := AddColumn(f.table, CnaeColumn, Null);
    }
    var withWebsite := EnrichWebsite(rules.website, c, f.table);
    r := EnrichCnae(rules.cnae, c, withWebsite);
  }

  // ---------------------------------------------------------------------
  // Properties
  // ---------------------------------------------------------------------

  /** Normalising a normalised URL changes nothing. */
  lemma NormalizeUrlIdempotent(url: string)
    ensures NormalizeUrl(NormalizeUrl(url)) == NormalizeUrl(url)
  {
    var r := NormalizeUrl(url);
    if r != [] {
      StripUnchanged(r);
    }
  }

  /** An empty string in the blacklist is a substring of every host, so it
      blacklists every URL that `urlparse` accepts. */
  lemma EmptyEntryBlacklistsAll(rules: WebsiteRules, url: string, i: nat)
    requires i < |rules.domainsBlacklist| && rules.domainsBlacklist[i] == []
    ensures IsBlacklisted(rules, url) <==> Netloc(NormalizeUrl(url)).Some?
  {
    if Netloc(NormalizeUrl(url)).None? { return; }
    var domain := Lower(Netloc(NormalizeUrl(url)).value);
    assert Lower(rules.domainsBlacklist[i]) == [];
    assert StartsWith(domain, []);
  }

  /** A '[' with no ']' in the host makes `urlparse` raise, so the URL is
      never blacklisted, whatever the blacklist names: with facebook.com
      blacklisted, "https://[facebook.com" still gets through. */
  lemma UnbalancedBracketNeverBlacklisted(rules: WebsiteRules, host: string)
    requires forall i :: 0 <= i < |host| ==>
      host[i] != ']' && host[i] != '/' && host[i] != '?' && host[i] != '#' && !IsTabOrNewline(host[i]) && !IsSpace(host[i])
    ensures !IsBlacklisted(rules, "https://[" + host)
  {
    var url := "https://[" + host;
    var rest := "[" + host;
    StripUnchanged(url);
    assert StartsWith(url, "https://") && url[8..] == rest;
    assert forall i :: 0 <= i < |rest| ==> rest[i] != ']' && !IsTabOrNewline(rest[i]);
    AuthorityOfHost(rest);
    assert rest[0] == '[';
  }

  lemma WebsiteRowOf(rules: WebsiteRules, c: Clients, t: Table, i: nat)
    requires i < |t.rows|
    ensures WebsiteEnriched(rules, c, t).rows[i] ==
      if rules.enabled then WebsiteStep(rules, c, AddColumn(t, WebsiteSourceColumn, Null).rows[i])
      else AddColumn(t, WebsiteSourceColumn, Null).rows[i]
  {
  }

  /** A row whose WEBSITE is filled leaves `enrich_website` as it was, apart
      from a WEBSITE_SOURCE column added as None when absent. */
  lemma WebsiteFilledRowUntouched(rules: WebsiteRules, c: Clients, t: Table, i: nat)
    requires i < |t.rows| && !IsEmpty(Get(t.rows[i], WebsiteColumn))
    ensures WebsiteEnriched(rules, c, t).rows[i] == AddColumn(t, WebsiteSourceColumn, Null).rows[i]
  {
    WebsiteRowOf(rules, c, t, i);
    var row := AddColumn(t, WebsiteSourceColumn, Null).rows[i];
    assert Get(row, WebsiteColumn) == Get(t.rows[i], WebsiteColumn);
  }

  /** An empty WEBSITE is filled exactly when the four conditions hold, with
      the normalised URL and the source "search"; otherwise the row stays. */
  lemma WebsiteEmptyRow(rules: WebsiteRules, c: Clients, t: Table, i: nat)
    requires i < |t.rows| && rules.enabled && IsEmpty(Get(t.rows[i], WebsiteColumn))
    ensures var init := AddColumn(t, WebsiteSourceColumn, Null).rows[i];
      var found := FoundWebsite(rules, c, init);
      var row := WebsiteEnriched(rules, c, t).rows[i];
      (found.Some? ==> row == init[WebsiteColumn := Str(found.value)][WebsiteSourceColumn := Str("search")])
      && (found.None? ==> row == init)
  {
    WebsiteRowOf(rules, c, t, i);
    var row := AddColumn(t, WebsiteSourceColumn, Null).rows[i];
    assert Get(row, WebsiteColumn) == Get(t.rows[i], WebsiteColumn);
  }

  /** Disabled website enrichment only adds WEBSITE_SOURCE. */
  lemma WebsiteDisabled(rules: WebsiteRules, c: Clients, t: Table)
    requires !rules.enabled
    ensures WebsiteEnriched(rules, c, t) == AddColumn(t, WebsiteSourceColumn, Null)
  {
  }

  /** The clients are consulted only for rows whose WEBSITE is empty: two
      clients that answer alike for those rows' queries give the same table. */
  lemma WebsiteSearchOnlyForEmptyRows(rules: WebsiteRules, c1: Clients, c2: Clients, t: Table)
    requires forall i :: 0 <= i < |t.rows| && IsEmpty(Get(t.rows[i], WebsiteColumn)) ==>
      var q := Query(rules.queryTemplate, AddColumn(t, WebsiteSourceColumn, Null).rows[i]);
      c1.searchWebsite(q) == c2.searchWebsite(q)
      && (c1.searchWebsite(q).Some? ==>
            c1.isUrlAlive(c1.searchWebsite(q).value, Timeout(rules)) == c2.isUrlAlive(c1.searchWebsite(q).value, Timeout(rules)))
    ensures WebsiteEnriched(rules, c1, t) == WebsiteEnriched(rules, c2, t)
  {
    var r1 := WebsiteEnriched(rules, c1, t);
    var r2 := WebsiteEnriched(rules, c2, t);
    forall i | 0 <= i < |t.rows|
      ensures r1.rows[i] == r2.rows[i]
    {
      WebsiteRowOf(rules, c1, t, i);
      WebsiteRowOf(rules, c2, t, i);
      var row := AddColumn(t, WebsiteSourceColumn, Null).rows[i];
      assert Get(row, WebsiteColumn) == Get(t.rows[i], WebsiteColumn);
    }
  }

  lemma CnaeRowOf(rules: CnaeRules, c: Clients, t: Table, i: nat)
    requires i < |t.rows|
    ensures CnaeEnriched(rules, c, t).rows[i] ==
      if rules.enabled then CnaeStep(rules, c, AddColumn(t, CnaeSourceColumn, Null).rows[i])
      else AddColumn(t, CnaeSourceColumn, Null).rows[i]
  {
  }

  /** A row whose CNAE is filled leaves `enrich_cnae` as it was, apart from a
      CNAE_SOURCE column added as None when absent. */
  lemma CnaeFilledRowUntouched(rules: CnaeRules, c: Clients, t: Table, i: nat)
    requires i < |t.rows| && !IsEmpty(Get(t.rows[i], CnaeColumn))
    ensures CnaeEnriched(rules, c, t).rows[i] == AddColumn(t, CnaeSourceColumn, Null).rows[i]
  {
    CnaeRowOf(rules, c, t, i);
    var row := AddColumn(t, CnaeSourceColumn, Null).rows[i];
    assert Get(row, CnaeColumn) == Get(t.rows[i], CnaeColumn);
  }

  /** An empty CNAE is filled only with a stripped code of four or five
      digits, and its source becomes "search". */
  lemma CnaeEmptyRow(rules: CnaeRules, c: Clients, t: Table, i: nat)
    requires i < |t.rows| && rules.enabled && IsEmpty(Get(t.rows[i], CnaeColumn))
    ensures var init := AddColumn(t, CnaeSourceColumn, Null).rows[i];
      var row := CnaeEnriched(rules, c, t).rows[i];
      row == init
      || (exists code :: 4 <= |code| <= 5 && AllDigits(code)
            && row == init[CnaeColumn := Str(code)][CnaeSourceColumn := Str("search")])
  {
    CnaeRowOf(rules, c, t, i);
    var init := AddColumn(t, CnaeSourceColumn, Null).rows[i];
    assert Get(init, CnaeColumn) == Get(t.rows[i], CnaeColumn);
    var found := FoundCnae(rules, c, init);
    if found.Some? {
      var code := found.value;
      assert CnaeEnriched(rules, c, t).rows[i] == init[CnaeColumn := Str(code)][CnaeSourceColumn := Str("search")];
    }
  }

  /** Disabled CNAE enrichment only adds CNAE_SOURCE. */
  lemma CnaeDisabled(rules: CnaeRules, c: Clients, t: Table)
    requires !rules.enabled
    ensures CnaeEnriched(rules, c, t) == AddColumn(t, CnaeSourceColumn, Null)
  {
  }

  /** `process_missing_only` never overwrites a filled WEBSITE or CNAE. */
  lemma NeverOverwrites(rules: Tier3Rules, c: Clients, t: Table, i: nat)
    requires WellFormed(t) && i < |t.rows|
    ensures var row := MissingOnlyProcessed(rules, c, t).rows[i];
      (WebsiteColumn in t.rows[i] && !IsEmpty(t.rows[i][WebsiteColumn]) ==>
         WebsiteColumn in row && row[WebsiteColumn] == t.rows[i][WebsiteColumn])
      && (CnaeColumn in t.rows[i] && !IsEmpty(t.rows[i][CnaeColumn]) ==>
         CnaeColumn in row && row[CnaeColumn] == t.rows[i][CnaeColumn])
  {
    var t0 := WithTargetColumns(t);
    var w := WebsiteEnriched(rules.website, c, t0);
    PreservedThroughPasses(rules, c, t, i);
    if WebsiteColumn in t.rows[i] && !IsEmpty(t.rows[i][WebsiteColumn]) {
      assert Get(t0.rows[i], WebsiteColumn) == t.rows[i][WebsiteColumn];
      WebsiteFilledRowUntouched(rules.website, c, t0, i);
    }
    if CnaeColumn in t.rows[i] && !IsEmpty(t.rows[i][CnaeColumn]) {
      assert Get(t0.rows[i], CnaeColumn) == t.rows[i][CnaeColumn];
      assert Get(w.rows[i], CnaeColumn) == t.rows[i][CnaeColumn];
      CnaeFilledRowUntouched(rules.cnae, c, w, i);
    }
  }

  /** How one cell travels through the two passes: the target columns are
      added without touching existing cells, the website pass keeps every
      cell outside WEBSITE and WEBSITE_SOURCE, and the CNAE pass every cell
      outside CNAE and CNAE_SOURCE. */
  lemma PreservedThroughPasses(rules: Tier3Rules, c: Clients, t: Table, i: nat)
    requires WellFormed(t) && i < |t.rows|
    ensures var t0 := WithTargetColumns(t);
      var w := WebsiteEnriched(rules.website, c, t0);
      var r := MissingOnlyProcessed(rules, c, t);
      (forall k :: k in t.rows[i] ==> k in t0.rows[i] && t0.rows[i][k] == t.rows[i][k])
      && (forall k :: k in t0.rows[i] && k != WebsiteColumn && k != WebsiteSourceColumn ==> k in w.rows[i] && w.rows[i][k] == t0.rows[i][k])
      && (forall k :: k in w.rows[i] && k != CnaeColumn && k != CnaeSourceColumn ==> k in r.rows[i] && r.rows[i][k] == w.rows[i][k])
  {
    var t0 := WithTargetColumns(t);
    TargetColumnsKeepCells(t, i);
    WebsitePassKeepsCells(rules.website, c, t0, i);
    CnaePassKeepsCells(rules.cnae, c, WebsiteEnriched(rules.website, c, t0), i);
  }

  lemma TargetColumnsKeepCells(t: Table, i: nat)
    requires WellFormed(t) && i < |t.rows|
    ensures var t0 := WithTargetColumns(t);
      forall k :: k in t.rows[i] ==> k in t0.rows[i] && t0.rows[i][k] == t.rows[i][k]
  {
    var t1 := AddColumn(t, WebsiteColumn, Null);
    assert forall k :: k in t.rows[i] ==> k in t1.rows[i] && t1.rows[i][k] == t.rows[i][k];
  }

  lemma WebsitePassKeepsCells(rules: WebsiteRules, c: Clients, t: Table, i: nat)
    requires i < |t.rows|
    ensures var w := WebsiteEnriched(rules, c, t);
      forall k :: k in t.rows[i] && k != WebsiteColumn && k != WebsiteSourceColumn ==> k in w.rows[i] && w.rows[i][k] == t.rows[i][k]
  {
    WebsiteRowOf(rules, c, t, i);
  }

  lemma CnaePassKeepsCells(rules: CnaeRules, c: Clients, t: Table, i: nat)
    requires i < |t.rows|
    ensures var r := CnaeEnriched(rules, c, t);
      forall k :: k in t.rows[i] && k != CnaeColumn && k != CnaeSourceColumn ==> k in r.rows[i] && r.rows[i][k] == t.rows[i][k]
  {
    CnaeRowOf(rules, c, t, i);
  }

  /** Only WEBSITE, WEBSITE_SOURCE, CNAE and CNAE_SOURCE can change. */
  lemma OtherCellsUnchanged(rules: Tier3Rules, c: Clients, t: Table, i: nat, k: string)
    requires WellFormed(t) && i < |t.rows| && k in t.rows[i] && !IsEnrichedColumn(k)
    ensures k in MissingOnlyProcessed(rules, c, t).rows[i]
    ensures MissingOnlyProcessed(rules, c, t).rows[i][k] == t.rows[i][k]
  {
    PreservedThroughPasses(rules, c, t, i);
  }
}
