/** Convert and Validate of internal/bookplugin, and the version that the Hub probe expects. */
module Recipes {
  import opened Common
  import opened Dedup
  import opened Text

  datatype Selector = Selector(css: string, path: string, attr: string, html: bool)

  datatype Stage = Stage(url: string, method_: string, form: map<string, string>, list: Selector,
                         fields: map<string, Selector>, next: Selector, reverse: bool, removeCss: string)

  datatype Recipe = Recipe(proxyMode: string, schema: string, name: string, baseUrl: string, domains: seq<string>,
                           language: string, search: Stage, detail: Stage, toc: Stage, chapter: Stage,
                           maxPages: int, minIntervalMs: int,
                           smokeKeyword: string)

  /**
   * What a recipe is checked against elsewhere: the syntax of URLs, the host that a search URL leads to when it is
   * safe, the names of credentials, and the search for embedded credentials in the whole document.
   */
  datatype Env = Env(hostname: string -> string, baseOk: string -> bool, searchHost: (string, string) -> Option<string>,
                     sensitive: string -> bool, documentOk: Recipe -> bool,
                     id: (string, string) -> string, hash: Recipe -> string)

  const FIELDS := ["name", "author", "bookUrl", "coverUrl", "intro", "kind", "lastChapter", "wordCount", "tocUrl",
                   "title", "chapterUrl", "content"]

  // ---- selectors and templates ----

  predicate IsLetter(c: char) { 'A' <= c <= 'Z' || 'a' <= c <= 'z' || c == '_' }

  predicate IsDigit(c: char) { '0' <= c <= '9' }

  predicate IsWord(c: char) { IsLetter(c) || IsDigit(c) }

  /** ^[A-Za-z_][\w:-]*$ */
  predicate AttrName(s: string) {
    s != "" && IsLetter(s[0]) && forall i | 0 < i < |s| :: IsWord(s[i]) || s[i] == ':' || s[i] == '-'
  }

  /** What is left behind the characters of a field name. */
  function AfterWord(s: string): (r: string)
    ensures |r| <= |s|
  {
    if s != "" && (IsWord(s[0]) || s[0] == '-') then AfterWord(s[1..]) else s
  }

  function AfterDigits(s: string): (r: string)
    ensures |r| <= |s|
  {
    if s != "" && IsDigit(s[0]) then AfterDigits(s[1..]) else s
  }

  /** (?:\.[A-Za-z_][\w-]*|\[(?:[0-9]+|\*)\])*$ */
  predicate Steps(s: string)
    decreases |s|
  {
    if s == "" then true
    else if s[0] == '.' then |s| > 1 && IsLetter(s[1]) && Steps(AfterWord(s[2..]))
    else if s[0] != '[' || |s| < 3 then false
    else if s[1] == '*' then s[2] == ']' && Steps(s[3..])
    else
      var rest := AfterDigits(s[1..]);
      |rest| < |s| - 1 && rest != "" && rest[0] == ']' && Steps(rest[1..])
  }

  /** JSONPath with fields, numeric indexes and [*] only. */
  predicate JsonPath(s: string) { s != "" && s[0] == '$' && Steps(s[1..]) }

  /** The marks of expressions that some other engine would have to run. */
  const MARKS := ["@js:", "<js>", "javascript:", "##", "&&", "||", "{{", "}}", "@get:", "@put:", "@web", "//"]

  predicate Marked(s: string) { exists m | m in MARKS :: Contains(s, m) }

  predicate HasControls(s: string) { '\r' in s || '\n' in s || '\0' in s }

  /** validateSelector */
  predicate SelectorOk(s: Selector) {
    && |s.css| + |s.path| <= 2000 && (s.css == "" || s.path == "")
    && (s.path != "" ==> JsonPath(s.path) && s.attr == "" && !s.html)
    && (s.attr != "" ==> AttrName(s.attr))
    && !Marked(s.css) && !HasControls(s.css)
  }

  const KEYWORD := "{keyword}"
  const PAGE := "{page}"

  /** The text without its two placeholders. */
  function Unfilled(s: string): string {
    if s == "" then ""
    else if StartsWith(s, KEYWORD) then Unfilled(s[|KEYWORD|..])
    else if StartsWith(s, PAGE) then Unfilled(s[|PAGE|..])
    else [s[0]] + Unfilled(s[1..])
  }

  predicate TemplateOk(s: string) {
    var t := Unfilled(s);
    '{' !in t && '}' !in t && !HasControls(t)
  }

  predicate DomainOk(d: string) {
    d != "" && !Contains(d, "..") && forall i | 0 <= i < |d| ::
        (IsWord(d[i]) && d[i] != '_') || d[i] == '.' || d[i] == '-'
  }

  // ---- validation ----

  /** strings.ToUpper on ASCII letters */
  function Upper(s: string): (r: string)
    ensures |r| == |s|
  {
    seq(|s|, i requires 0 <= i < |s| => if 'a' <= s[i] <= 'z' then s[i] - 'a' + 'A' else s[i])
  }

  function WithMethod(s: Stage): Stage { s.(method_ := Upper(if s.method_ == "" then "GET" else s.method_)) }

  function WithDefaults(env: Env, r: Recipe): Recipe {
    r.(domains := if r.domains == [] then [env.hostname(r.baseUrl)] else r.domains,
       maxPages := if r.maxPages == 0 then 50 else r.maxPages,
       minIntervalMs := if r.minIntervalMs == 0 then 1200 else r.minIntervalMs,
       search := WithMethod(r.search), detail := WithMethod(r.detail), toc := WithMethod(r.toc),
       chapter := WithMethod(r.chapter))
  }

  predicate Empty(s: Selector) { s.css == "" && s.path == "" && s.attr == "" && !s.html }

  predicate Has(s: Stage, field: string) { field in s.fields && !Empty(s.fields[field]) }

  predicate HeadOk(env: Env, r: Recipe) {
    && r.proxyMode in ["", "never", "always"] && r.schema == "shadow.book.recipe/v1" && Trim(r.name) != ""
    && |r.name| <= 160
    && env.baseOk(r.baseUrl)
    && |r.domains| <= 8 && env.hostname(r.baseUrl) in r.domains && (forall d | d in r.domains :: DomainOk(d))
    && 1 <= r.maxPages <= 100 && 1200 <= r.minIntervalMs <= 60000 && |r.smokeKeyword| <= 120
    && r.search.url != "" && !Empty(r.search.list) && Has(r.search, "name") && Has(r.search, "bookUrl")
    && Has(r.detail, "name") && !Empty(r.toc.list) && Has(r.toc, "chapterUrl") && Has(r.toc, "title")
    && Has(r.chapter, "content")
  }

  predicate FormOk(env: Env, form: map<string, string>) {
    && |form| <= 32
    && forall k | k in form :: AttrName(k) && !env.sensitive(k) && |form[k]| <= 4096 && TemplateOk(form[k])
  }

  predicate UrlOk(env: Env, baseUrl: string, domains: seq<string>, url: string) {
    && (url != "" ==> env.searchHost(baseUrl, url).Some? && env.searchHost(baseUrl, url).value in domains)
    && TemplateOk(url) && !Contains(url, "@js:") && !Contains(url, "<js>")
  }

  predicate StageOk(env: Env, baseUrl: string, domains: seq<string>, s: Stage, isSearch: bool) {
    && s.method_ in ["GET", "POST"]
    && (isSearch || (s.url == "" && s.form == map[] && s.method_ == "GET"))
    && |s.fields| <= 16 && (s.method_ == "GET" ==> s.form == map[])
    && FormOk(env, s.form) && UrlOk(env, baseUrl, domains, s.url)
    && (forall f | f in s.fields :: f in FIELDS && SelectorOk(s.fields[f]))
    && SelectorOk(s.list) && SelectorOk(s.next) && (s.removeCss != "" ==> SelectorOk(Removing(s.removeCss)))
  }

  function Removing(css: string): Selector { Selector(css, "", "", false) }

  predicate StagesOk(env: Env, r: Recipe) {
    && StageOk(env, r.baseUrl, r.domains, r.search, true) && StageOk(env, r.baseUrl, r.domains, r.detail, false)
    && StageOk(env, r.baseUrl, r.domains, r.toc, false) && StageOk(env, r.baseUrl, r.domains, r.chapter, false)
  }

  predicate Valid(env: Env, r: Recipe) { HeadOk(env, r) && StagesOk(env, r) && env.documentOk(r) }

  /** The recipe with its defaults, when it is then valid. */
  function Validated(env: Env, r: Recipe): Option<Recipe> {
    var d := WithDefaults(env, r);
    if Valid(env, d) then Some(d) else None
  }

  lemma UpperTwice(s: string)
    ensures Upper(Upper(s)) == Upper(s)
  {
    assert forall i | 0 <= i < |s| :: Upper(Upper(s))[i] == Upper(s)[i];
  }

  lemma MethodStays(s: Stage)
    ensures WithMethod(WithMethod(s)) == WithMethod(s)
  {
    UpperTwice(if s.method_ == "" then "GET" else s.method_);
  }

  /** Defaults are filled in once and for all. */
  lemma DefaultsStay(env: Env, r: Recipe)
    ensures WithDefaults(env, WithDefaults(env, r)) == WithDefaults(env, r)
  {
    MethodStays(r.search);
    MethodStays(r.detail);
    MethodStays(r.toc);
    MethodStays(r.chapter);
  }

  /** A validated recipe validates as it stands, whatever proxy mode the source puts into it afterwards, if at all. */
  lemma ValidatedStays(env: Env, r: Recipe, mode: string)
    requires Validated(env, r).Some?
    ensures var v := Validated(env, r).value;
            && Validated(env, v) == Some(v)
            && (Validated(env, v.(proxyMode := mode)).Some? ==>
                  Validated(env, v.(proxyMode := mode)) == Some(v.(proxyMode := mode)))
  {
    var v := WithDefaults(env, r);
    DefaultsStay(env, r);
    assert WithDefaults(env, v.(proxyMode := mode)) == v.(proxyMode := mode);
  }

  function WithNumbers(env: Env, r: Recipe): Recipe {
    r.(domains := if r.domains == [] then [env.hostname(r.baseUrl)] else r.domains,
       maxPages := if r.maxPages == 0 then 50 else r.maxPages,
       minIntervalMs := if r.minIntervalMs == 0 then 1200 else r.minIntervalMs)
  }

  lemma HeadIgnoresMethods(env: Env, r: Recipe)
    ensures HeadOk(env, WithNumbers(env, r)) == HeadOk(env, WithDefaults(env, r))
  {
    var a, b := WithNumbers(env, r), WithDefaults(env, r);
    forall f: string ensures Has(a.search, f) == Has(b.search, f) && Has(a.detail, f) == Has(b.detail, f)
      ensures Has(a.toc, f) == Has(b.toc, f) && Has(a.chapter, f) == Has(b.chapter, f)
    {
    }
  }

  /** A recipe while it is being validated in place. */
  class Draft {
    var recipe: Recipe

    constructor (recipe: Recipe)
      ensures this.recipe == recipe
    {
      this.recipe := recipe;
    }

    method FillNumbers(env: Env)
      modifies this
      ensures recipe == WithNumbers(env, old(recipe))
    {
      if recipe.domains == [] {
        recipe := recipe.(domains := [env.hostname(recipe.baseUrl)]);
      }
      if recipe.maxPages == 0 {
        recipe := recipe.(maxPages := 50);
      }
      if recipe.minIntervalMs == 0 {
        recipe := recipe.(minIntervalMs := 1200);
      }
    }

    /** Each stage gets its method before it is checked. */
    method CheckStages(env: Env) returns (ok: bool)
      modifies this
      ensures var r := old(recipe);
              var d := r.(search := WithMethod(r.search), detail := WithMethod(r.detail), toc := WithMethod(r.toc),
                          chapter := WithMethod(r.chapter));
              ok == StagesOk(env, d) && (ok ==> recipe == d)
    {
      var baseUrl, domains := recipe.baseUrl, recipe.domains;
      recipe := recipe.(search := WithMethod(recipe.search));
      if !StageOk(env, baseUrl, domains, recipe.search, true) {
        return false;
      }
      recipe := recipe.(detail := WithMethod(recipe.detail));
      if !StageOk(env, baseUrl, domains, recipe.detail, false) {
        return false;
      }
      recipe := recipe.(toc := WithMethod(recipe.toc));
      if !StageOk(env, baseUrl, domains, recipe.toc, false) {
        return false;
      }
      recipe := recipe.(chapter := WithMethod(recipe.chapter));
      return StageOk(env, baseUrl, domains, recipe.chapter, false);
    }

    /** Fills in the defaults and checks. A recipe that is refused may be left with some of the defaults. */
    method Validate(env: Env) returns (ok: bool)
      modifies this
      ensures ok == Validated(env, old(recipe)).Some?
      ensures ok ==> recipe == Validated(env, old(recipe)).value
    {
      HeadIgnoresMethods(env, recipe);
      FillNumbers(env);
      if !HeadOk(env, recipe) {
        return false;
      }
      ok := CheckStages(env);
      ok := ok && env.documentOk(recipe);
    }
  }

  // ---- conversion ----

  datatype Entry = Entry(id: string, recipe: Option<Recipe>, blockers: seq<string>)

  datatype Report = Report(entries: seq<Entry>, supported: nat, unsupported: nat)

  /** What the protocol makes of a rule: a recipe, and what stands in its way. */
  datatype Draught = Draught(recipe: Recipe, blockers: seq<string>)

  function Judged(id: string, valid: Option<Recipe>, own: seq<string>, duplicate: bool): Entry {
    var blockers := own + (if valid.None? then ["invalid recipe"] else [])
      + if duplicate then ["duplicate site in this source pack"] else [];
    Entry(id, if blockers == [] then valid else None, blockers)
  }

  function Assessed(env: Env, sourceId: string, d: Draught, duplicate: bool): Entry {
    Judged(env.id(sourceId, d.recipe.baseUrl), Validated(env, d.recipe), d.blockers, duplicate)
  }

  function IdOf(env: Env, sourceId: string): Draught -> string { (d: Draught) => env.id(sourceId, d.recipe.baseUrl) }

  function Assessor(env: Env, sourceId: string): (Draught, bool) -> Entry {
    (d: Draught, duplicate: bool) => Assessed(env, sourceId, d, duplicate)
  }

  /** Each rule with whether its identifier was seen before it. */
  function InTurn<R(==), E>(id: R -> string, assess: (R, bool) -> E, rs: seq<R>): (es: seq<E>)
    ensures |es| == |rs|
  {
    if rs == [] then []
    else
      var n := |rs| - 1;
      InTurn(id, assess, rs[..n]) + [assess(rs[n], id(rs[n]) in Keys(id, rs[..n]))]
  }

  lemma {:induction false} InTurnAt<R, E>(id: R -> string, assess: (R, bool) -> E, rs: seq<R>, i: nat)
    requires i < |rs|
    ensures InTurn(id, assess, rs)[i] == assess(rs[i], id(rs[i]) in Keys(id, rs[..i]))
    decreases |rs|
  {
    var n := |rs| - 1;
    if i < n {
      InTurnAt(id, assess, rs[..n], i);
      assert rs[..n][..i] == rs[..i];
    }
  }

  lemma InTurnNext<R, E>(id: R -> string, assess: (R, bool) -> E, rs: seq<R>, i: nat)
    requires i < |rs|
    ensures InTurn(id, assess, rs[..i + 1])
         == InTurn(id, assess, rs[..i]) + [assess(rs[i], id(rs[i]) in Keys(id, rs[..i]))]
    ensures Keys(id, rs[..i + 1]) == Keys(id, rs[..i]) + {id(rs[i])}
  {
    assert rs[..i + 1][..i] == rs[..i] && rs[..i + 1] == rs[..i] + [rs[i]];
    OneMore(id, rs[..i], rs[i]);
  }

  function Entries(env: Env, sourceId: string, ds: seq<Draught>): (es: seq<Entry>)
    ensures |es| == |ds|
  {
    InTurn(IdOf(env, sourceId), Assessor(env, sourceId), ds)
  }

  function Supported(es: seq<Entry>): nat {
    if es == [] then 0 else Supported(es[..|es| - 1]) + if es[|es| - 1].recipe.Some? then 1 else 0
  }

  lemma SupportedNext(es: seq<Entry>, e: Entry)
    ensures Supported(es + [e]) == Supported(es) + if e.recipe.Some? then 1 else 0
  {
    assert (es + [e])[..|es|] == es;
  }

  method Judge(id: string, valid: Option<Recipe>, own: seq<string>, duplicate: bool) returns (e: Entry)
    ensures e == Judged(id, valid, own, duplicate)
  {
    var blockers := own;
    if valid.None? {
      blockers := blockers + ["invalid recipe"];
    }
    if duplicate {
      blockers := blockers + ["duplicate site in this source pack"];
    }
    var recipe := None;
    if blockers == [] {
      recipe := valid;
    }
    return Entry(id, recipe, blockers);
  }

  method Assess(env: Env, sourceId: string, d: Draught, duplicate: bool) returns (e: Entry)
    ensures e == Assessed(env, sourceId, d, duplicate)
  {
    var draft := new Draft(d.recipe);
    var ok := draft.Validate(env);
    var valid := if ok then Some(draft.recipe) else None;
    e := Judge(env.id(sourceId, d.recipe.baseUrl), valid, d.blockers, duplicate);
  }

  /** One rule after another; a site that was seen before is blocked, even when the earlier rule was not supported. */
  ghost predicate Converted(env: Env, sourceId: string, ds: seq<Draught>, out: seq<Entry>, seen: set<string>,
                            supported: nat, unsupported: nat) {
    && out == Entries(env, sourceId, ds) && seen == Keys(IdOf(env, sourceId), ds)
    && supported == Supported(out) && supported + unsupported == |ds|
  }

  lemma ConvertedNext(env: Env, sourceId: string, ds: seq<Draught>, i: nat, out: seq<Entry>, seen: set<string>,
                      supported: nat, unsupported: nat)
    requires i < |ds| && Converted(env, sourceId, ds[..i], out, seen, supported, unsupported)
    ensures var id := env.id(sourceId, ds[i].recipe.baseUrl);
            var e := Assessed(env, sourceId, ds[i], id in seen);
            var n := if e.recipe.Some? then 1 else 0;
            Converted(env, sourceId, ds[..i + 1], out + [e], seen + {id}, supported + n, unsupported + 1 - n)
  {
    var id := env.id(sourceId, ds[i].recipe.baseUrl);
    InTurnNext(IdOf(env, sourceId), Assessor(env, sourceId), ds, i);
    SupportedNext(out, Assessed(env, sourceId, ds[i], id in seen));
  }

  method Convert(env: Env, sourceId: string, ds: seq<Draught>) returns (r: Report)
    ensures r.entries == Entries(env, sourceId, ds) && r.supported == Supported(r.entries)
    ensures r.supported + r.unsupported == |ds|
  {
    var out: seq<Entry> := [];
    var seen: set<string> := {};
    var supported: nat, unsupported: nat := 0, 0;
    for i := 0 to |ds|
      invariant Converted(env, sourceId, ds[..i], out, seen, supported, unsupported)
    {
      ConvertedNext(env, sourceId, ds, i, out, seen, supported, unsupported);
      var id := env.id(sourceId, ds[i].recipe.baseUrl);
      var e := Assess(env, sourceId, ds[i], id in seen);
      seen := seen + {id};
      out := out + [e];
      if e.recipe.Some? {
        supported := supported + 1;
      } else {
        unsupported := unsupported + 1;
      }
    }
    assert ds[..|ds|] == ds;
    return Report(out, supported, unsupported);
  }

  /** No rule hides another: each has its entry, which has a recipe exactly when nothing blocks it. */
  lemma RecipeIffUnblocked(env: Env, sourceId: string, ds: seq<Draught>, i: nat)
    requires i < |ds|
    ensures var e := Entries(env, sourceId, ds)[i];
            && (e.recipe.Some? <==> e.blockers == [])
            && (e.recipe.Some? ==> Validated(env, ds[i].recipe) == e.recipe && ds[i].blockers == [])
  {
    InTurnAt(IdOf(env, sourceId), Assessor(env, sourceId), ds, i);
  }

  predicate Uses(s: Stage, sel: Selector) {
    sel == s.list || sel == s.next || sel in s.fields.Values || (s.removeCss != "" && sel == Removing(s.removeCss))
  }

  function Stages(r: Recipe): seq<Stage> { [r.search, r.detail, r.toc, r.chapter] }

  /** Whatever a protocol makes of its rules, a supported one holds no expression to run: no selector with the mark of a
      script, no placeholder but the two that are filled in, and one search address, inside the declared domains. */
  lemma SupportedIsDeclarative(env: Env, sourceId: string, ds: seq<Draught>, i: nat, s: Stage, sel: Selector)
    requires i < |ds| && Entries(env, sourceId, ds)[i].recipe.Some?
    requires s in Stages(Entries(env, sourceId, ds)[i].recipe.value) && Uses(s, sel)
    ensures !Marked(sel.css) && (sel.path != "" ==> JsonPath(sel.path) && sel.css == "")
    ensures var r := Entries(env, sourceId, ds)[i].recipe.value;
            s.url != "" ==>
              s == r.search && TemplateOk(s.url) && env.searchHost(r.baseUrl, s.url).Some?
              && env.searchHost(r.baseUrl, s.url).value in r.domains
    ensures forall k | k in s.form :: TemplateOk(s.form[k]) && !env.sensitive(k)
  {
    RecipeIffUnblocked(env, sourceId, ds, i);
    StageOfValid(env, Entries(env, sourceId, ds)[i].recipe.value, s, sel);
  }

  lemma StageOfValid(env: Env, r: Recipe, s: Stage, sel: Selector)
    requires StagesOk(env, r) && s in Stages(r) && Uses(s, sel)
    ensures SelectorOk(sel) && FormOk(env, s.form) && UrlOk(env, r.baseUrl, r.domains, s.url)
    ensures s != r.search ==> s.url == ""
  {
    assert StageOk(env, r.baseUrl, r.domains, s, s == r.search);
  }

  /** Two supported rules never share an identifier, so an install never finds a duplicate in a converted report. */
  lemma SupportedIdsDiffer(env: Env, sourceId: string, ds: seq<Draught>, i: nat, j: nat)
    requires i < j < |ds|
    ensures var es := Entries(env, sourceId, ds); es[i].recipe.Some? && es[j].recipe.Some? ==> es[i].id != es[j].id
  {
    InTurnAt(IdOf(env, sourceId), Assessor(env, sourceId), ds, i);
    InTurnAt(IdOf(env, sourceId), Assessor(env, sourceId), ds, j);
    assert ds[i] in ds[..j];
    assert IdOf(env, sourceId)(ds[i]) in Keys(IdOf(env, sourceId), ds[..j]);
  }

  // ---- the version ----

  function Version(env: Env, r: Recipe): string { "0.2.0+" + env.hash(r) }

  /** A source may force its own proxy mode on a converted recipe. */
  function WithProxy(e: Entry, mode: string): Entry {
    if e.recipe.Some? && mode != "" then e.(recipe := Some(e.recipe.value.(proxyMode := mode))) else e
  }

  /** The version that Files writes into the metadata of the plugin, after validating once more. */
  function WrittenVersion(env: Env, e: Entry): Option<string> {
    if e.recipe.None? || e.blockers != [] then None
    else
      var v := Validated(env, e.recipe.value);
      if v.None? then None else Some(Version(env, v.value))
  }

  /** The version that the Hub probe computes from its own conversion of the same rules. */
  function ExpectedVersion(env: Env, e: Entry): string { if e.recipe.Some? then Version(env, e.recipe.value) else "" }

  lemma WrittenAsExpected(env: Env, e: Entry)
    requires e.recipe.Some? ==>
      e.blockers == [] && (Validated(env, e.recipe.value).Some? ==> Validated(env, e.recipe.value) == e.recipe)
    ensures WrittenVersion(env, e).Some? ==> WrittenVersion(env, e).value == ExpectedVersion(env, e)
    ensures WrittenVersion(env, e).Some? <==> e.recipe.Some? && Validated(env, e.recipe.value).Some?
  {
  }

  lemma EntryIsStable(env: Env, sourceId: string, ds: seq<Draught>, i: nat, mode: string, e: Entry)
    requires i < |ds| && e == WithProxy(Entries(env, sourceId, ds)[i], mode) && e.recipe.Some?
    ensures e.blockers == [] && (Validated(env, e.recipe.value).Some? ==> Validated(env, e.recipe.value) == e.recipe)
    ensures mode == "" ==> Validated(env, e.recipe.value).Some?
  {
    RecipeIffUnblocked(env, sourceId, ds, i);
    ValidatedStays(env, ds[i].recipe, mode);
  }

  /** A plugin that could be written always has the version the probe expects. */
  lemma VersionsAgree(env: Env, sourceId: string, ds: seq<Draught>, i: nat, mode: string, e: Entry)
    requires i < |ds| && e == WithProxy(Entries(env, sourceId, ds)[i], mode)
    ensures WrittenVersion(env, e).Some? ==> WrittenVersion(env, e).value == ExpectedVersion(env, e)
    ensures mode == "" && e.recipe.Some? ==> WrittenVersion(env, e).Some?
  {
    if e.recipe.Some? {
      EntryIsStable(env, sourceId, ds, i, mode, e);
    }
    WrittenAsExpected(env, e);
  }

  // ---- what an accepted recipe is ----

  /** The stage as it was sent, but for the method. */
  predicate SameStage(s: Stage, t: Stage) {
    && t.url == s.url && t.form == s.form && t.list == s.list && t.fields == s.fields && t.next == s.next
    && t.reverse == s.reverse && t.removeCss == s.removeCss
    && (s.method_ == "" || s.method_ == "GET" || s.method_ == "get" ==> t.method_ == "GET")
    && (s.method_ == "POST" || s.method_ == "post" ==> t.method_ == "POST")
  }

  lemma MethodMeans(s: Stage)
    ensures SameStage(s, WithMethod(s))
  {
    var m := WithMethod(s).method_;
    if s.method_ == "" || s.method_ == "GET" || s.method_ == "get" {
      assert m == "GET";
    }
    if s.method_ == "POST" || s.method_ == "post" {
      assert m == "POST";
    }
  }

  /** A field that a stage says how to find. */
  predicate Names(s: Stage, field: string) {
    && field in s.fields
    && var f := s.fields[field]; f.css != "" || f.path != "" || f.attr != "" || f.html
  }

  /** What is stored is what was sent, with fifty pages, 1200 milliseconds and the site's own host where nothing was. */
  lemma ValidatedMeans(env: Env, r: Recipe)
    requires Validated(env, r).Some?
    ensures var v := Validated(env, r).value;
            && v.name == r.name && v.baseUrl == r.baseUrl && v.language == r.language && v.proxyMode == r.proxyMode
            && v.smokeKeyword == r.smokeKeyword && v.schema == r.schema == "shadow.book.recipe/v1"
            && v.domains == (if r.domains == [] then [env.hostname(r.baseUrl)] else r.domains)
            && v.maxPages == (if r.maxPages == 0 then 50 else r.maxPages)
            && v.minIntervalMs == (if r.minIntervalMs == 0 then 1200 else r.minIntervalMs)
            && SameStage(r.search, v.search) && SameStage(r.detail, v.detail) && SameStage(r.toc, v.toc)
            && SameStage(r.chapter, v.chapter)
  {
    MethodMeans(r.search);
    MethodMeans(r.detail);
    MethodMeans(r.toc);
    MethodMeans(r.chapter);
  }

  lemma HeadBounds(env: Env, v: Recipe)
    requires HeadOk(env, v)
    ensures && |v.name| <= 160 && |v.smokeKeyword| <= 120 && 1 <= v.maxPages <= 100
            && 1200 <= v.minIntervalMs <= 60000 && |v.domains| <= 8 && env.hostname(v.baseUrl) in v.domains
            && env.baseOk(v.baseUrl) && (v.proxyMode == "" || v.proxyMode == "never" || v.proxyMode == "always")
  {
    assert v.proxyMode in ["", "never", "always"];
  }

  lemma BlankHasNoName(s: string)
    requires Trim(s) != ""
    ensures s != ""
  {
  }

  /** And it keeps to the bounds. */
  lemma ValidatedKeepsBounds(env: Env, r: Recipe)
    requires Validated(env, r).Some?
    ensures var v := Validated(env, r).value;
            && 1 <= |v.name| <= 160 && |v.smokeKeyword| <= 120 && 1 <= v.maxPages <= 100
            && 1200 <= v.minIntervalMs <= 60000 && 1 <= |v.domains| <= 8 && env.hostname(v.baseUrl) in v.domains
            && env.baseOk(v.baseUrl) && (v.proxyMode == "" || v.proxyMode == "never" || v.proxyMode == "always")
  {
    var v := WithDefaults(env, r);
    HeadBounds(env, v);
    BlankHasNoName(v.name);
  }

  /** The fields that a book needs are named. */
  lemma ValidatedNamesFields(env: Env, r: Recipe)
    requires Validated(env, r).Some?
    ensures var v := Validated(env, r).value;
            && v.search.url != "" && Names(v.search, "name") && Names(v.search, "bookUrl") && Names(v.detail, "name")
            && Names(v.toc, "chapterUrl") && Names(v.toc, "title") && Names(v.chapter, "content")
  {
  }

  /** Only the search asks by address, by form or by POST, and a form is only sent by POST. */
  lemma OnlySearchAsks(env: Env, r: Recipe)
    requires Validated(env, r).Some?
    ensures var v := Validated(env, r).value;
            && (v.search.method_ == "GET" || v.search.method_ == "POST")
            && (v.search.method_ == "GET" ==> v.search.form == map[])
            && forall s | s == v.detail || s == v.toc || s == v.chapter ::
                 s.url == "" && s.form == map[] && s.method_ == "GET"
  {
  }
}
