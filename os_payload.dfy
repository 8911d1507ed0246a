/** Phase 1 of the OpenSearch proxy's autocomplete: the search request body. Prefix matching
    runs on the `.edge` sub-fields of `pref` and `alt`, optionally on `description` and
    `search_all`; highlighting runs on the base fields. */
module OsPayload {
  import opened Wrappers
  import opened Seqs
  import opened Json

  /** `lang` and `display_langs` as the code tests them: `None` and `[]` both mean "every
      language". */
  predicate Given(langs: Option<seq<string>>) {
    langs.Some? && langs.value != []
  }

  /** `prefix + l + suffix` for each language `l`, in the given order. */
  function PerLang(prefix: string, langs: seq<string>, suffix: string): (r: seq<string>)
    ensures |r| == |langs|
    ensures forall i :: 0 <= i < |r| ==> r[i] == prefix + langs[i] + suffix
  {
    seq(|langs|, i requires 0 <= i < |langs| => prefix + langs[i] + suffix)
  }

  lemma PerLangSnoc(prefix: string, langs: seq<string>, suffix: string, i: nat)
    requires i < |langs|
    ensures PerLang(prefix, langs[..i + 1], suffix) == PerLang(prefix, langs[..i], suffix) + [prefix + langs[i] + suffix]
  {
  }

  /** What `add_edge_fields(root)` appends. */
  function EdgeFields(root: string, lang: Option<seq<string>>): seq<string> {
    if Given(lang) then PerLang(root + ".", lang.value, ".edge") else [root + ".*.edge"]
  }

  /** What the `description` branch appends. */
  function DescriptionFields(lang: Option<seq<string>>): seq<string> {
    if Given(lang) then PerLang("description.", lang.value, "") else ["description.*"]
  }

  /** The query field list, root by root in the order pref, alt, description, search_all. */
  function QueryFields(lang: Option<seq<string>>, requested: set<string>): seq<string> {
    (if "pref" in requested then EdgeFields("pref", lang) else [])
    + (if "alt" in requested then EdgeFields("alt", lang) else [])
    + (if "description" in requested then DescriptionFields(lang) else [])
    + (if "search_all" in requested then ["search_all"] else [])
  }

  /** `add_edge_fields(root)`: appends to the list being built. */
  method AddEdgeFields(queryFields: seq<string>, root: string, lang: Option<seq<string>>)
    returns (r: seq<string>)
    ensures r == queryFields + EdgeFields(root, lang)
  {
    r := queryFields;
    if Given(lang) {
      var ls := lang.value;
      for i := 0 to |ls|
        invariant r == queryFields + PerLang(root + ".", ls[..i], ".edge")
      {
        PerLangSnoc(root + ".", ls, ".edge", i);
        r := r + [root + "." + ls[i] + ".edge"];
      }
      assert ls[..|ls|] == ls;
    } else {
      r := r + [root + ".*.edge"];
    }
  }

  /** What the `description` branch appends to the list being built. */
  method AddDescriptionFields(queryFields: seq<string>, lang: Option<seq<string>>)
    returns (r: seq<string>)
    ensures r == queryFields + DescriptionFields(lang)
  {
    r := queryFields;
    if Given(lang) {
      var ls := lang.value;
      for i := 0 to |ls|
        invariant r == queryFields + PerLang("description.", ls[..i], "")
      {
        PerLangSnoc("description.", ls, "", i);
        assert "description." + ls[i] + "" == "description." + ls[i];
        r := r + ["description." + ls[i]];
      }
      assert ls[..|ls|] == ls;
    } else {
      r := r + ["description.*"];
    }
  }

  /** `_build_os_query_fields(lang, requested)` */
  method BuildOsQueryFields(lang: Option<seq<string>>, requested: set<string>)
    returns (queryFields: seq<string>)
    ensures queryFields == QueryFields(lang, requested)
  {
    ghost var pref := if "pref" in requested then EdgeFields("pref", lang) else [];
    ghost var alt := if "alt" in requested then EdgeFields("alt", lang) else [];
    ghost var desc := if "description" in requested then DescriptionFields(lang) else [];
    ghost var all := if "search_all" in requested then ["search_all"] else [];
    queryFields := [];
    if "pref" in requested {
      queryFields := AddEdgeFields(queryFields, "pref", lang);
    }
    assert queryFields == pref;
    if "alt" in requested {
      queryFields := AddEdgeFields(queryFields, "alt", lang);
    }
    assert queryFields == pref + alt;
    if "description" in requested {
      queryFields := AddDescriptionFields(queryFields, lang);
    }
    assert queryFields == pref + alt + desc;
    if "search_all" in requested {
      queryFields := queryFields + ["search_all"];
    }
    assert queryFields == pref + alt + desc + all;
  }

  /** Every field but the catch-all names one of the three language-keyed roots, so
      `search_all` occurs at most once, as the last field, and only when requested. */
  lemma {:induction false} SearchAllAtMostOnce(lang: Option<seq<string>>, requested: set<string>)
    ensures var r := QueryFields(lang, requested);
      && ("search_all" in r <==> "search_all" in requested)
      && ("search_all" in r ==> r[|r| - 1] == "search_all" && "search_all" !in r[..|r| - 1])
  {
    var langFields :=
      (if "pref" in requested then EdgeFields("pref", lang) else [])
      + (if "alt" in requested then EdgeFields("alt", lang) else [])
      + (if "description" in requested then DescriptionFields(lang) else []);
    assert "search_all" !in langFields by {
      NotSearchAll("pref.", lang, ".edge");
      NotSearchAll("alt.", lang, ".edge");
      NotSearchAll("description.", lang, "");
      assert "pref" + "." == "pref." && "alt" + "." == "alt.";
    }
    var r := QueryFields(lang, requested);
    if "search_all" in requested {
      assert r == langFields + ["search_all"];
      assert r[..|r| - 1] == langFields;
    } else {
      assert r == langFields;
    }
  }

  /** A language-keyed field list of a root other than `search_all` never holds `search_all`. */
  lemma NotSearchAll(prefix: string, lang: Option<seq<string>>, suffix: string)
    requires |prefix| > 0 && prefix[0] != 's'
    ensures Given(lang) ==> "search_all" !in PerLang(prefix, lang.value, suffix)
    ensures "search_all" != prefix + "*" + suffix
  {
    assert (prefix + "*" + suffix)[0] == prefix[0];
    if Given(lang) {
      var r := PerLang(prefix, lang.value, suffix);
      forall i | 0 <= i < |r| ensures r[i][0] == prefix[0] {
        assert r[i] == prefix + lang.value[i] + suffix;
      }
    }
  }

  /** The computed list is empty exactly when none of the four known roots is requested. */
  lemma QueryFieldsEmpty(lang: Option<seq<string>>, requested: set<string>)
    ensures QueryFields(lang, requested) == []
        <==> "pref" !in requested && "alt" !in requested
             && "description" !in requested && "search_all" !in requested
  {
  }

  /** The request of the payload test: languages fr, en, es on pref and description. */
  lemma QueryFieldsOfPayloadTest()
    ensures QueryFields(Some(["fr", "en", "es"]), {"pref", "description"})
         == ["pref.fr.edge", "pref.en.edge", "pref.es.edge",
             "description.fr", "description.en", "description.es"]
  {
    var ls := ["fr", "en", "es"];
    assert "alt" !in {"pref", "description"};
    assert "search_all" !in {"pref", "description"};
    assert "pref" + "." == "pref.";
    assert "pref." + "fr" + ".edge" == "pref.fr.edge";
    assert "pref." + "en" + ".edge" == "pref.en.edge";
    assert "pref." + "es" + ".edge" == "pref.es.edge";
    assert "description." + "fr" + "" == "description.fr";
    assert "description." + "en" + "" == "description.en";
    assert "description." + "es" + "" == "description.es";
    assert PerLang("pref.", ls, ".edge") == ["pref.fr.edge", "pref.en.edge", "pref.es.edge"];
    assert PerLang("description.", ls, "") == ["description.fr", "description.en", "description.es"];
  }

  // ---------------------------------------------------------------------------
  // Highlight fields
  // ---------------------------------------------------------------------------

  /** `{"number_of_fragments": 0}`: highlight the whole field value. */
  const NoFragments: Json := JObj([("number_of_fragments", JNum(Int(0)))])

  /** The keys `add_hl(root)` assigns, in assignment order. */
  function HlRootKeys(root: string, displayLangs: Option<seq<string>>): seq<string> {
    if Given(displayLangs) then PerLang(root + ".", displayLangs.value, "") else [root + ".*"]
  }

  /** Every key assigned by `_build_os_hl_fields`, repeats included. */
  function HlKeys(displayLangs: Option<seq<string>>): seq<string> {
    HlRootKeys("pref", displayLangs) + HlRootKeys("alt", displayLangs)
    + HlRootKeys("description", displayLangs)
  }

  /** A dict mapping each of `keys` to `NoFragments`. */
  function Uniform(keys: seq<string>): (r: Fields)
    ensures Keys(r) == keys
    ensures forall i :: 0 <= i < |r| ==> r[i].1 == NoFragments
  {
    seq(|keys|, i requires 0 <= i < |keys| => (keys[i], NoFragments))
  }

  /** The highlight map: each key once, in the order it was first assigned (a dict assignment
      to an existing key keeps its place). */
  function HlFields(displayLangs: Option<seq<string>>): Fields {
    Uniform(Dedup(HlKeys(displayLangs)))
  }

  /** Assigning `NoFragments` to a key of a uniform map. */
  lemma {:induction false} SetUniform(keys: seq<string>, k: string)
    ensures Set(Uniform(keys), k, NoFragments) == Uniform(if k in keys then keys else keys + [k])
    decreases |keys|
  {
    var u := Uniform(keys);
    if keys != [] && keys[0] != k {
      SetUniform(keys[1..], k);
      assert u[1..] == Uniform(keys[1..]);
      var tail := if k in keys[1..] then keys[1..] else keys[1..] + [k];
      assert [keys[0]] + tail == if k in keys then keys else keys + [k];
    } else if keys != [] {
      assert [(k, NoFragments)] + u[1..] == u;
    }
  }

  /** `hl_fields[key] = {"number_of_fragments": 0}` */
  method AssignHl(hl: Fields, ghost done: seq<string>, key: string) returns (r: Fields)
    requires hl == Uniform(Dedup(done))
    ensures r == Uniform(Dedup(done + [key]))
  {
    SetUniform(Dedup(done), key);
    DedupSnoc(done, key);
    r := Set(hl, key, NoFragments);
  }

  /** `add_hl(root)` */
  method AddHl(hl: Fields, ghost done: seq<string>, root: string, displayLangs: Option<seq<string>>)
    returns (r: Fields)
    requires hl == Uniform(Dedup(done))
    ensures r == Uniform(Dedup(done + HlRootKeys(root, displayLangs)))
  {
    if Given(displayLangs) {
      var ls := displayLangs.value;
      var prefix := root + ".";
      r := hl;
      assert done + PerLang(prefix, ls[..0], "") == done;
      for i := 0 to |ls|
        invariant r == Uniform(Dedup(done + PerLang(prefix, ls[..i], "")))
      {
        AddedKey(done, prefix, ls, i);
        r := AssignHl(r, done + PerLang(prefix, ls[..i], ""), prefix + ls[i]);
      }
      assert ls[..|ls|] == ls;
    } else {
      r := AssignHl(hl, done, root + ".*");
    }
  }

  /** One pass of the loop in `add_hl` adds the key of one more language. */
  lemma AddedKey(done: seq<string>, prefix: string, ls: seq<string>, i: nat)
    requires i < |ls|
    ensures done + PerLang(prefix, ls[..i + 1], "") == (done + PerLang(prefix, ls[..i], "")) + [prefix + ls[i]]
  {
    PerLangSnoc(prefix, ls, "", i);
    assert prefix + ls[i] + "" == prefix + ls[i];
  }

  /** `_build_os_hl_fields(display_langs)` */
  method BuildOsHlFields(displayLangs: Option<seq<string>>) returns (hl: Fields)
    ensures hl == HlFields(displayLangs)
  {
    ghost var k1, k2, k3 := HlRootKeys("pref", displayLangs), HlRootKeys("alt", displayLangs),
                            HlRootKeys("description", displayLangs);
    assert Uniform(Dedup([])) == [];
    hl := AddHl([], [], "pref", displayLangs);
    assert [] + k1 == k1;
    hl := AddHl(hl, k1, "alt", displayLangs);
    hl := AddHl(hl, k1 + k2, "description", displayLangs);
    assert k1 + k2 + k3 == HlKeys(displayLangs);
  }

  /** The highlight map has distinct keys, exactly the keys `<root>.<lang>` (or `<root>.*`)
      for the three roots, each bound to `{"number_of_fragments": 0}`, and is never empty. */
  lemma HlFieldsShape(displayLangs: Option<seq<string>>)
    ensures var hl := HlFields(displayLangs);
      && DistinctKeys(hl)
      && hl != []
      && (forall k :: HasKey(hl, k) <==> k in HlKeys(displayLangs))
      && (forall k :: HasKey(hl, k) ==> Get(hl, k) == Some(NoFragments))
  {
    var hl := HlFields(displayLangs);
    assert HlKeys(displayLangs)[0] in HlKeys(displayLangs);
    forall k | HasKey(hl, k) ensures Get(hl, k) == Some(NoFragments) {
      GetIsMember(hl, k);
    }
  }

  lemma HlKeysOfPayloadTest()
    ensures HlKeys(Some(["fr", "en"]))
         == ["pref.fr", "pref.en", "alt.fr", "alt.en", "description.fr", "description.en"]
  {
    var ls := ["fr", "en"];
    assert "pref" + "." == "pref." && "alt" + "." == "alt." && "description" + "." == "description.";
    assert "pref." + "fr" + "" == "pref.fr" && "pref." + "en" + "" == "pref.en";
    assert "alt." + "fr" + "" == "alt.fr" && "alt." + "en" + "" == "alt.en";
    assert "description." + "fr" + "" == "description.fr" && "description." + "en" + "" == "description.en";
    assert PerLang("pref.", ls, "") == ["pref.fr", "pref.en"];
    assert PerLang("alt.", ls, "") == ["alt.fr", "alt.en"];
    assert PerLang("description.", ls, "") == ["description.fr", "description.en"];
  }

  /** The highlight keys of the payload test: pref, alt and description in fr and en. */
  lemma HlFieldsOfPayloadTest()
    ensures forall k :: HasKey(HlFields(Some(["fr", "en"])), k) <==>
      k in {"pref.fr", "pref.en", "alt.fr", "alt.en", "description.fr", "description.en"}
  {
    HlFieldsShape(Some(["fr", "en"]));
    HlKeysOfPayloadTest();
  }

  // ---------------------------------------------------------------------------
  // The payload
  // ---------------------------------------------------------------------------

  /** The `_source` fields every hit brings back. */
  const SourceFields: seq<string> :=
    ["iri", "scheme", "top_concept", "lang_set", "pref", "alt", "description", "broader", "narrower"]

  /** Used when the requested fields name none of the known roots. */
  const FallbackFields: seq<string> := ["pref.*.edge", "alt.*.edge"]

  /** `set(fields or ["pref", "alt"])` */
  function Requested(fields: Option<seq<string>>): (r: set<string>)
    ensures !Given(fields) ==> r == {"pref", "alt"}
    ensures Given(fields) ==> forall f :: f in r <==> f in fields.value
  {
    var fs := if Given(fields) then fields.value else ["pref", "alt"];
    set f | f in fs
  }

  /** The `multi_match` clause; its `type` is always `bool_prefix` and its `analyzer` `fold`. */
  datatype MultiMatch = MultiMatch(query: string, fields: seq<string>)

  /** The request body: `track_total_hits` is always true, and the highlight section, when
      present, always has `require_field_match` false. */
  datatype SearchRequest = SearchRequest(
    from: int, size: int, source: seq<string>, multiMatch: MultiMatch, highlight: Option<Fields>)

  /** The body as the JSON dict sent to OpenSearch, members in insertion order. */
  function ToJson(r: SearchRequest): Json {
    var multiMatch := JObj([
      ("query", JStr(r.multiMatch.query)),
      ("type", JStr("bool_prefix")),
      ("fields", JArr(Strs(r.multiMatch.fields))),
      ("analyzer", JStr("fold"))]);
    var base := [
      ("from", JNum(Int(r.from))),
      ("size", JNum(Int(r.size))),
      ("track_total_hits", JBool(true)),
      ("_source", JArr(Strs(r.source))),
      ("query", JObj([("multi_match", multiMatch)]))];
    match r.highlight
    case None => JObj(base)
    case Some(hl) =>
      JObj(base + [("highlight", JObj([("require_field_match", JBool(false)), ("fields", JObj(hl))]))])
  }

  /** The request body `_generate_os_payload` builds: `from` and `size` are the offset and the
      limit, the query runs on the computed fields or on the fallback when there are none,
      and the highlight section is there exactly when highlighting is asked for. */
  function Payload(
    q: string, lang: Option<seq<string>>, fields: Option<seq<string>>,
    displayLangs: Option<seq<string>>, limit: int, offset: int, highlight: bool): (p: SearchRequest)
    ensures p.from == offset && p.size == limit && p.source == SourceFields
    ensures p.multiMatch.query == q
    ensures var qf := QueryFields(lang, Requested(fields));
      p.multiMatch.fields == if qf == [] then FallbackFields else qf
    ensures p.multiMatch.fields != []
    ensures p.highlight.Some? <==> highlight
    ensures highlight ==> p.highlight == Some(HlFields(displayLangs))
  {
    var qf := QueryFields(lang, Requested(fields));
    var hl := if highlight then HlFields(displayLangs) else [];
    HlFieldsShape(displayLangs);
    SearchRequest(offset, limit, SourceFields, MultiMatch(q, if qf == [] then FallbackFields else qf),
                  if highlight && hl != [] then Some(hl) else None)
  }

  /** `_generate_os_payload(...)` */
  method GenerateOsPayload(
    q: string, lang: Option<seq<string>>, fields: Option<seq<string>>,
    displayLangs: Option<seq<string>>, limit: int, offset: int, highlight: bool)
    returns (payload: SearchRequest)
    ensures payload == Payload(q, lang, fields, displayLangs, limit, offset, highlight)
  {
    var requested := Requested(fields);
    var queryFields := BuildOsQueryFields(lang, requested);
    var hlFields: Fields := [];
    if highlight {
      hlFields := BuildOsHlFields(displayLangs);
    }
    payload := SearchRequest(
      offset, limit, SourceFields,
      MultiMatch(q, if queryFields == [] then FallbackFields else queryFields), None);
    if highlight && hlFields != [] {
      payload := payload.(highlight := Some(hlFields));
    }
  }

  /** With no `fields` the search runs on the edge fields of pref and alt. */
  lemma DefaultFields(lang: Option<seq<string>>, displayLangs: Option<seq<string>>,
                      q: string, limit: int, offset: int, highlight: bool)
    ensures Payload(q, lang, None, displayLangs, limit, offset, highlight).multiMatch.fields
         == EdgeFields("pref", lang) + EdgeFields("alt", lang)
  {
    var r := Requested(None);
    assert "description" !in r && "search_all" !in r;
    assert EdgeFields("pref", lang) != [];
  }
}
