/** Phase 3 of the OpenSearch proxy's autocomplete: turning the search response into
    `SearchResults`. Every shape error the Python code would raise is a `Failure` here; none
    of them is caught by the proxy. */
module OsResults {
  import opened Wrappers
  import opened Seqs
  import opened Json
  import opened Concepts
  import OsPayload

  // ---------------------------------------------------------------------------
  // Language maps to literal lists (`_dict_to_literals`)
  // ---------------------------------------------------------------------------

  /** A language survives the display filter: no filter, or the language is in it. */
  predicate Shown(lang: string, displayLangs: Option<seq<string>>) {
    !OsPayload.Given(displayLangs) || lang in displayLangs.value
  }

  /** `None if t is None else str(t)` */
  function LiteralText(t: Json): Option<string> {
    if t.JNull? then None else Some(PyStr(t))
  }

  /** `str(snippets[0])` when `hl.get(key)` is a non-empty list, otherwise `None`. */
  function Snippet(hl: Fields, key: string): Option<string> {
    match Get(hl, key)
    case Some(JArr(snippets)) => if snippets != [] then Some(PyStr(snippets[0])) else None
    case _ => None
  }

  /** One literal per text of a language, in order; only the first carries the snippet. */
  function Tagged(texts: seq<Json>, lang: string, snippet: Option<string>): (r: seq<RdfLiteral>)
    ensures |r| == |texts|
    ensures forall i :: 0 <= i < |r| ==>
      r[i] == RdfLiteral(LiteralText(texts[i]), Some(lang), if i == 0 then snippet else None)
  {
    seq(|texts|, i requires 0 <= i < |texts| =>
      RdfLiteral(LiteralText(texts[i]), Some(lang), if i == 0 then snippet else None))
  }

  /** The literals that one `(lang_code, texts)` member contributes. A language outside the
      display filter and a value that is not a list contribute nothing; otherwise each text
      yields exactly one literal in order, and within this (field, language) only the first
      literal gets the highlight, `str` of the first snippet under `<field>.<lang>`. The
      highlight map is consulted, and fails when it is not a dict, only for a member that
      passes both tests. */
  function EntryLiterals(fieldName: string, lang: string, texts: Json,
                         displayLangs: Option<seq<string>>, hl: Json): (r: Result<seq<RdfLiteral>, PyError>)
    ensures r.Failure? <==> Shown(lang, displayLangs) && texts.JArr? && !hl.JObj?
    ensures r.Failure? ==> r.error == AttributeError
    ensures r.Success? && !(Shown(lang, displayLangs) && texts.JArr?) ==> r.value == []
    ensures r.Success? && Shown(lang, displayLangs) && texts.JArr? ==>
      && |r.value| == |texts.items|
      && (forall i :: 0 <= i < |r.value| ==>
            r.value[i].text == LiteralText(texts.items[i]) && r.value[i].lang == Some(lang))
      && (r.value != [] ==> r.value[0].highlight == Snippet(hl.fields, fieldName + "." + lang))
      && (forall i :: 0 < i < |r.value| ==> r.value[i].highlight.None?)
  {
    if !Shown(lang, displayLangs) || !texts.JArr? then Success([])
    else if !hl.JObj? then Failure(AttributeError)
    else Success(Tagged(texts.items, lang, Snippet(hl.fields, fieldName + "." + lang)))
  }

  /** The literals of the members of a language map, member by member. */
  function LiteralsOf(members: Fields, fieldName: string, displayLangs: Option<seq<string>>, hl: Json)
    : Result<seq<RdfLiteral>, PyError>
    decreases |members|
  {
    if members == [] then Success([])
    else
      var prev :- LiteralsOf(members[..|members| - 1], fieldName, displayLangs, hl);
      var (lang, texts) := members[|members| - 1];
      var more :- EntryLiterals(fieldName, lang, texts, displayLangs, hl);
      Success(prev + more)
  }

  /** `_dict_to_literals(obj, field_name, display_langs, hl)`: `None` for a missing map, an
      `AttributeError` for a value that has no `items()`, and `None` again when no literal
      comes out. */
  function DictLiterals(obj: Json, fieldName: string, displayLangs: Option<seq<string>>, hl: Json)
    : (r: Result<Option<seq<RdfLiteral>>, PyError>)
    ensures obj.JNull? ==> r == Success(None)
    ensures !obj.JNull? && !obj.JObj? ==> r == Failure(AttributeError)
    ensures r.Success? && r.value.Some? ==> r.value.value != []
  {
    if obj.JNull? then Success(None)
    else if !obj.JObj? then Failure(AttributeError)
    else
      var out :- LiteralsOf(obj.fields, fieldName, displayLangs, hl);
      Success(if out == [] then None else Some(out))
  }

  lemma {:induction false} LiteralsOfFailurePersists(
    members: Fields, i: nat, fieldName: string, displayLangs: Option<seq<string>>, hl: Json)
    requires i <= |members|
    requires LiteralsOf(members[..i], fieldName, displayLangs, hl).Failure?
    ensures LiteralsOf(members, fieldName, displayLangs, hl) == LiteralsOf(members[..i], fieldName, displayLangs, hl)
    decreases |members|
  {
    if i < |members| {
      var init := members[..|members| - 1];
      assert init[..i] == members[..i];
      LiteralsOfFailurePersists(init, i, fieldName, displayLangs, hl);
    } else {
      assert members[..i] == members;
    }
  }

  /** One more member of the map: its literals are appended, or its failure is the result. */
  lemma LiteralsOfStep(members: Fields, i: nat, fieldName: string, displayLangs: Option<seq<string>>, hl: Json)
    requires i < |members|
    ensures var entry := EntryLiterals(fieldName, members[i].0, members[i].1, displayLangs, hl);
      var prev := LiteralsOf(members[..i], fieldName, displayLangs, hl);
      prev.Success? ==>
        LiteralsOf(members[..i + 1], fieldName, displayLangs, hl)
        == if entry.Success? then Success(prev.value + entry.value) else Failure(entry.error)
  {
    assert members[..i + 1][..i] == members[..i];
  }

  lemma TaggedSnoc(items: seq<Json>, idx: nat, lang: string, snippet: Option<string>)
    requires idx < |items|
    ensures Tagged(items[..idx + 1], lang, snippet)
         == Tagged(items[..idx], lang, snippet)
            + [RdfLiteral(LiteralText(items[idx]), Some(lang), if idx == 0 then snippet else None)]
  {
  }

  /** The inner loop of `_dict_to_literals`: one literal per text of a language, the first
      carrying the highlight snippet. */
  method AppendTagged(out: seq<RdfLiteral>, items: seq<Json>, lang: string, snippet: Option<string>)
    returns (out': seq<RdfLiteral>)
    ensures out' == out + Tagged(items, lang, snippet)
  {
    out' := out;
    for idx := 0 to |items|
      invariant out' == out + Tagged(items[..idx], lang, snippet)
    {
      TaggedSnoc(items, idx, lang, snippet);
      out' := out' + [RdfLiteral(LiteralText(items[idx]), Some(lang), if idx == 0 then snippet else None)];
    }
    assert items[..|items|] == items;
  }

  /** `_dict_to_literals`, loop by loop. */
  method DictToLiterals(obj: Json, fieldName: string, displayLangs: Option<seq<string>>, hl: Json)
    returns (r: Result<Option<seq<RdfLiteral>>, PyError>)
    ensures r == DictLiterals(obj, fieldName, displayLangs, hl)
  {
    if obj.JNull? {
      return Success(None);
    }
    if !obj.JObj? {
      return Failure(AttributeError);
    }
    var members := obj.fields;
    var out: seq<RdfLiteral> := [];
    for i := 0 to |members|
      invariant LiteralsOf(members[..i], fieldName, displayLangs, hl) == Success(out)
    {
      var (langCode, texts) := members[i];
      LiteralsOfStep(members, i, fieldName, displayLangs, hl);
      if OsPayload.Given(displayLangs) && langCode !in displayLangs.value {
        assert out + [] == out;
        continue;
      }
      if !texts.JArr? {
        assert out + [] == out;
        continue;
      }
      if !hl.JObj? {
        LiteralsOfFailurePersists(members, i + 1, fieldName, displayLangs, hl);
        return Failure(AttributeError);
      }
      var snippet := Snippet(hl.fields, fieldName + "." + langCode);
      out := AppendTagged(out, texts.items, langCode, snippet);
    }
    assert members[..|members|] == members;
    r := Success(if out == [] then None else Some(out));
  }

  /** The literals of one language, in order. */
  function OfLang(lits: seq<RdfLiteral>, lang: string): seq<RdfLiteral> {
    if lits == [] then []
    else OfLang(lits[..|lits| - 1], lang)
         + (if lits[|lits| - 1].lang == Some(lang) then [lits[|lits| - 1]] else [])
  }

  lemma {:induction false} OfLangAppend(a: seq<RdfLiteral>, b: seq<RdfLiteral>, lang: string)
    ensures OfLang(a + b, lang) == OfLang(a, lang) + OfLang(b, lang)
    decreases |b|
  {
    if b == [] {
      assert a + b == a;
    } else {
      var b' := b[..|b| - 1];
      assert (a + b)[..|a + b| - 1] == a + b';
      OfLangAppend(a, b', lang);
    }
  }

  lemma {:induction false} OfLangTagged(texts: seq<Json>, lang: string, other: string, snippet: Option<string>)
    ensures OfLang(Tagged(texts, lang, snippet), other) == if other == lang then Tagged(texts, lang, snippet) else []
    decreases |texts|
  {
    if texts != [] {
      var t := Tagged(texts, lang, snippet);
      var n := |t| - 1;
      assert t[..n] == Tagged(texts[..n], lang, snippet);
      assert t == t[..n] + [t[n]];
      assert t[n].lang == Some(lang);
      OfLangTagged(texts[..n], lang, other, snippet);
    }
  }

  /** The literals of one entry carry that entry's language and no other. */
  lemma EntryLiteralsOfLang(fieldName: string, lang: string, other: string, texts: Json,
                            displayLangs: Option<seq<string>>, hl: Json)
    requires EntryLiterals(fieldName, lang, texts, displayLangs, hl).Success?
    ensures var e := EntryLiterals(fieldName, lang, texts, displayLangs, hl).value;
      OfLang(e, other) == if other == lang then e else []
  {
    if Shown(lang, displayLangs) && texts.JArr? {
      OfLangTagged(texts.items, lang, other, Snippet(hl.fields, fieldName + "." + lang));
    }
  }

  /** In a language map with distinct keys, the literals of language `lang` are exactly the
      ones its own member contributes: one per text, in order, the first one alone carrying
      the highlight. */
  lemma {:induction false} LiteralsOfOneLanguage(
    members: Fields, fieldName: string, displayLangs: Option<seq<string>>, hl: Json, lang: string, texts: Json)
    requires DistinctKeys(members)
    requires (lang, texts) in members
    requires LiteralsOf(members, fieldName, displayLangs, hl).Success?
    ensures EntryLiterals(fieldName, lang, texts, displayLangs, hl).Success?
    ensures OfLang(LiteralsOf(members, fieldName, displayLangs, hl).value, lang)
         == EntryLiterals(fieldName, lang, texts, displayLangs, hl).value
    decreases |members|
  {
    var init := members[..|members| - 1];
    var (l, t) := members[|members| - 1];
    assert Keys(init) == Keys(members)[..|members| - 1];
    assert DistinctKeys(init);
    var prev := LiteralsOf(init, fieldName, displayLangs, hl);
    assert prev.Success?;
    var more := EntryLiterals(fieldName, l, t, displayLangs, hl);
    OfLangAppend(prev.value, more.value, lang);
    EntryLiteralsOfLang(fieldName, l, lang, t, displayLangs, hl);
    if (lang, texts) == (l, t) {
      assert lang !in Keys(init) by {
        assert Keys(members)[|members| - 1] == lang;
      }
      NoSuchLanguage(init, fieldName, displayLangs, hl, lang);
    } else {
      assert (lang, texts) in init by {
        var k :| 0 <= k < |members| && members[k] == (lang, texts);
        if k == |members| - 1 {
          assert false;
        }
        assert init[k] == members[k];
      }
      LiteralsOfOneLanguage(init, fieldName, displayLangs, hl, lang, texts);
    }
  }

  lemma {:induction false} NoSuchLanguage(
    members: Fields, fieldName: string, displayLangs: Option<seq<string>>, hl: Json, lang: string)
    requires lang !in Keys(members)
    requires LiteralsOf(members, fieldName, displayLangs, hl).Success?
    ensures OfLang(LiteralsOf(members, fieldName, displayLangs, hl).value, lang) == []
    decreases |members|
  {
    if members != [] {
      var init := members[..|members| - 1];
      var (l, t) := members[|members| - 1];
      assert Keys(init) == Keys(members)[..|members| - 1];
      assert Keys(members)[|members| - 1] == l;
      var prev := LiteralsOf(init, fieldName, displayLangs, hl);
      var more := EntryLiterals(fieldName, l, t, displayLangs, hl);
      NoSuchLanguage(init, fieldName, displayLangs, hl, lang);
      OfLangAppend(prev.value, more.value, lang);
      EntryLiteralsOfLang(fieldName, l, lang, t, displayLangs, hl);
    }
  }

  /** Every literal comes from a member whose language passes the display filter and whose
      value is a list, and carries that member's language. */
  lemma {:induction false} LiteralsAreShown(
    members: Fields, fieldName: string, displayLangs: Option<seq<string>>, hl: Json)
    requires LiteralsOf(members, fieldName, displayLangs, hl).Success?
    ensures forall lit :: lit in LiteralsOf(members, fieldName, displayLangs, hl).value ==>
      exists m :: m in members && lit.lang == Some(m.0) && Shown(m.0, displayLangs) && m.1.JArr?
    decreases |members|
  {
    if members != [] {
      var init := members[..|members| - 1];
      var m := members[|members| - 1];
      LiteralsAreShown(init, fieldName, displayLangs, hl);
      forall m' | m' in init ensures m' in members {
        var k :| 0 <= k < |init| && init[k] == m';
        assert members[k] == m';
      }
    }
  }

  /** The conversion fails exactly when the highlight value is not a dict and some member
      passes the display filter with a list value. */
  lemma {:induction false} LiteralsFailure(
    members: Fields, fieldName: string, displayLangs: Option<seq<string>>, hl: Json)
    ensures LiteralsOf(members, fieldName, displayLangs, hl).Failure?
        <==> !hl.JObj? && exists m :: m in members && Shown(m.0, displayLangs) && m.1.JArr?
    decreases |members|
  {
    if members != [] {
      var init := members[..|members| - 1];
      var m := members[|members| - 1];
      LiteralsFailure(init, fieldName, displayLangs, hl);
      assert members == init + [m];
      forall m' | m' in init ensures m' in members { }
      assert forall m' :: m' in members ==> m' in init || m' == m;
    }
  }

  // ---------------------------------------------------------------------------
  // Best label (`_choose_best_litteral`)
  // ---------------------------------------------------------------------------

  predicate InLangs(x: RdfLiteral, langs: seq<string>) {
    x.lang.Some? && x.lang.value in langs
  }

  /** `[x for x in lits if x.lang in langs]` */
  function Keep(lits: seq<RdfLiteral>, langs: seq<string>): (r: seq<RdfLiteral>)
    ensures forall x :: x in r <==> x in lits && InLangs(x, langs)
  {
    if lits == [] then []
    else (if InLangs(lits[0], langs) then [lits[0]] else []) + Keep(lits[1..], langs)
  }

  /** The candidates of one source: the literals in the display languages, or all of them
      when the filter is absent or keeps none. */
  function Candidates(lits: seq<RdfLiteral>, displayLangs: Option<seq<string>>): (c: seq<RdfLiteral>)
    requires lits != []
    ensures c != []
    ensures forall x :: x in c ==> x in lits
    ensures OsPayload.Given(displayLangs) && (exists x :: x in lits && InLangs(x, displayLangs.value))
            ==> c == Keep(lits, displayLangs.value)
    ensures !OsPayload.Given(displayLangs) || (forall x :: x in lits ==> !InLangs(x, displayLangs.value))
            ==> c == lits
  {
    if OsPayload.Given(displayLangs) then
      var kept := Keep(lits, displayLangs.value);
      if kept == [] then lits
      else
        assert kept[0] in kept;
        kept
    else lits
  }

  /** A highlight Python treats as true: present and not empty. */
  predicate Highlighted(x: RdfLiteral) {
    x.highlight.Some? && x.highlight.value != ""
  }

  /** Index of the first highlighted literal, `|c|` when there is none. */
  function FirstHighlighted(c: seq<RdfLiteral>): (k: nat)
    ensures k <= |c|
    ensures k < |c| ==> Highlighted(c[k])
    ensures forall j :: 0 <= j < k ==> !Highlighted(c[j])
  {
    if c == [] then 0 else if Highlighted(c[0]) then 0 else 1 + FirstHighlighted(c[1..])
  }

  /** A literal promoted to the best label of `source`. */
  function LabelOf(lit: RdfLiteral, source: SourceField): (b: BestLabel)
    ensures b.text == lit.text && b.lang == lit.lang && b.highlight == lit.highlight
    ensures b.sourceField == source
  {
    BestLabel(lit.text, lit.lang, lit.highlight, source)
  }

  /** `pick_from(lits, source)` */
  function PickFrom(lits: Option<seq<RdfLiteral>>, source: SourceField, displayLangs: Option<seq<string>>)
    : (r: Option<BestLabel>)
    ensures r.None? <==> lits.None? || lits.value == []
    ensures r.Some? ==> r.value.sourceField == source
  {
    if lits.None? || lits.value == [] then None
    else
      var c := Candidates(lits.value, displayLangs);
      var k := FirstHighlighted(c);
      Some(LabelOf(if k < |c| then c[k] else c[0], source))
  }

  /** `_choose_best_litteral(pref, alt, description, display_langs)` */
  function ChooseBestLiteral(pref: Option<seq<RdfLiteral>>, alt: Option<seq<RdfLiteral>>,
                             desc: Option<seq<RdfLiteral>>, displayLangs: Option<seq<string>>)
    : Option<BestLabel>
  {
    var p := PickFrom(pref, Pref, displayLangs);
    if p.Some? then p
    else
      var a := PickFrom(alt, Alt, displayLangs);
      if a.Some? then a else PickFrom(desc, Description, displayLangs)
  }

  predicate Present(lits: Option<seq<RdfLiteral>>) {
    lits.Some? && lits.value != []
  }

  /** The source that wins, and its literals. */
  function Winner(pref: Option<seq<RdfLiteral>>, alt: Option<seq<RdfLiteral>>,
                  desc: Option<seq<RdfLiteral>>): (SourceField, Option<seq<RdfLiteral>>)
  {
    if Present(pref) then (Pref, pref) else if Present(alt) then (Alt, alt) else (Description, desc)
  }

  /** No label exactly when all three sources are missing or empty; otherwise the label comes
      from the first non-empty source in the order pref, alt, description, whatever the
      highlights and the display languages are. */
  lemma BestLabelSource(pref: Option<seq<RdfLiteral>>, alt: Option<seq<RdfLiteral>>,
                        desc: Option<seq<RdfLiteral>>, displayLangs: Option<seq<string>>)
    ensures var r := ChooseBestLiteral(pref, alt, desc, displayLangs);
      && (r.None? <==> !Present(pref) && !Present(alt) && !Present(desc))
      && (r.Some? ==> r.value.sourceField == Winner(pref, alt, desc).0)
  {
  }

  /** The label copies one candidate of the winning source: the first highlighted one when
      any candidate is highlighted, otherwise the first candidate. */
  lemma BestLabelChoice(pref: Option<seq<RdfLiteral>>, alt: Option<seq<RdfLiteral>>,
                        desc: Option<seq<RdfLiteral>>, displayLangs: Option<seq<string>>)
    requires Present(pref) || Present(alt) || Present(desc)
    ensures var (source, lits) := Winner(pref, alt, desc);
      var c := Candidates(lits.value, displayLangs);
      var r := ChooseBestLiteral(pref, alt, desc, displayLangs);
      && r.Some?
      && ((exists x :: x in c && Highlighted(x)) ==>
            exists k :: 0 <= k < |c| && Highlighted(c[k]) && r.value == LabelOf(c[k], source)
                         && forall j :: 0 <= j < k ==> !Highlighted(c[j]))
      && ((forall x :: x in c ==> !Highlighted(x)) ==> r.value == LabelOf(c[0], source))
  {
    var (source, lits) := Winner(pref, alt, desc);
    var c := Candidates(lits.value, displayLangs);
    var k := FirstHighlighted(c);
    if exists x :: x in c && Highlighted(x) {
      var x :| x in c && Highlighted(x);
      var i :| 0 <= i < |c| && c[i] == x;
      assert k <= i;
    }
  }

  /** When the winning source has a literal in a display language, the label is in a display
      language; the filter never moves the choice to another source. */
  lemma BestLabelLanguage(pref: Option<seq<RdfLiteral>>, alt: Option<seq<RdfLiteral>>,
                          desc: Option<seq<RdfLiteral>>, displayLangs: Option<seq<string>>)
    requires OsPayload.Given(displayLangs)
    requires var lits := Winner(pref, alt, desc).1;
      Present(lits) && exists x :: x in lits.value && InLangs(x, displayLangs.value)
    ensures var r := ChooseBestLiteral(pref, alt, desc, displayLangs);
      r.Some? && r.value.lang.Some? && r.value.lang.value in displayLangs.value
  {
    var (source, lits) := Winner(pref, alt, desc);
    var c := Candidates(lits.value, displayLangs);
    var k := FirstHighlighted(c);
    var chosen := if k < |c| then c[k] else c[0];
    assert chosen in c;
  }

  /** A pref literal outside the display languages still beats a highlighted alt literal in
      them: priority between sources comes first, and the language filter only narrows the
      candidates within a source. */
  lemma PrefBeatsHighlightedAlt(p: RdfLiteral, a: RdfLiteral)
    requires p.lang == Some("de") && p.highlight.None?
    requires a.lang == Some("fr") && a.highlight == Some("<em>x</em>")
    ensures var r := ChooseBestLiteral(Some([p]), Some([a]), None, Some(["fr"]));
      r == Some(LabelOf(p, Pref))
  {
    assert Keep([p], ["fr"]) == [];
  }

  // ---------------------------------------------------------------------------
  // Hits (`_parse_hit`, `_concept_from_parts`)
  // ---------------------------------------------------------------------------

  /** `_OSHitParts`: what is kept of one hit before it becomes a concept. */
  datatype HitParts = HitParts(
    iri: Json, scheme: Json, topConcept: Option<bool>, langSet: Option<seq<string>>,
    broaderIds: seq<string>, narrowerIds: seq<string>, score: Option<Score>, hl: Json,
    prefMap: Json, altMap: Json, descMap: Json)

  /** The string entries of a list, in order. */
  function StringsOnly(xs: seq<Json>): (r: seq<string>)
    ensures forall s :: s in r <==> JStr(s) in xs
    ensures |r| <= |xs|
  {
    if xs == [] then []
    else (if xs[0].JStr? then [xs[0].s] else []) + StringsOnly(xs[1..])
  }

  /** Filtering a concatenation filters each part, so the kept entries stay in order. */
  lemma {:induction false} StringsOnlyAppend(a: seq<Json>, b: seq<Json>)
    ensures StringsOnly(a + b) == StringsOnly(a) + StringsOnly(b)
    decreases |a|
  {
    if a == [] {
      assert a + b == b;
    } else {
      assert (a + b)[1..] == a[1..] + b;
      StringsOnlyAppend(a[1..], b);
    }
  }

  /** One entry is kept exactly when it is a string. */
  lemma StringsOnlyOne(x: Json)
    ensures StringsOnly([x]) == if x.JStr? then [x.s] else []
  {
    assert [x][1..] == [];
  }

  lemma {:induction false} StringsOnlyOfStrings(xs: seq<string>)
    ensures StringsOnly(Strs(xs)) == xs
    decreases |xs|
  {
    if xs != [] {
      assert Strs(xs)[1..] == Strs(xs[1..]);
      StringsOnlyOfStrings(xs[1..]);
    }
  }

  /** `[str(x) for x in (v or []) if isinstance(x, str)]`; iterating a dict visits its keys
      and iterating a string its characters, all of them strings. */
  function StringIds(v: Json): (r: Result<seq<string>, PyError>)
    ensures r.Failure? <==> Truthy(v) && !(v.JArr? || v.JObj? || v.JStr?)
    ensures v.JArr? ==> r == Success(StringsOnly(v.items))
  {
    var xs :- Iterate(Or(v, JArr([])));
    Success(StringsOnly(xs))
  }

  /** `float(h.get("_score")) if h.get("_score") is not None else None` */
  function ScoreOf(v: Json): (r: Result<Option<Score>, PyError>)
    ensures v.JNull? ==> r == Success(None)
    ensures !v.JNull? && FloatConvertible(v) ==> r == Success(Some(Score(v)))
    ensures !v.JNull? && !FloatConvertible(v) ==> r.Failure?
    ensures v.JNum? && v.n.Int? && !(-FloatOverflow < v.n.i < FloatOverflow) ==> r == Failure(OverflowError)
    ensures v.JStr? && !FloatConvertible(v) ==> r == Failure(ValueError)
  {
    if v.JNull? then Success(None)
    else if FloatConvertible(v) then Success(Some(Score(v)))
    else Failure(FloatError(v))
  }

  /** `_parse_hit(h)` */
  function ParseHit(h: Json): (r: Result<HitParts, PyError>)
    ensures !h.JObj? ==> r == Failure(AttributeError)
    ensures h.JObj? ==> var src := Or(GetOr(h.fields, "_source", JObj([])), JObj([]));
      && (!src.JObj? ==> r == Failure(AttributeError))
      && (src.JObj? ==> r == SourceParts(src.fields, h.fields))
  {
    if !h.JObj? then Failure(AttributeError)
    else
      var src := Or(GetOr(h.fields, "_source", JObj([])), JObj([]));
      if !src.JObj? then Failure(AttributeError)
      else SourceParts(src.fields, h.fields)
  }

  /** The parts of a hit whose `_source` is the dict with members `s` and whose own members
      are `hf`: the keyword arguments of `_OSHitParts`, evaluated in order, so the first
      of `broader`, `narrower` and `float(_score)` to raise decides the error. */
  function SourceParts(s: Fields, hf: Fields): (r: Result<HitParts, PyError>)
    ensures r.Success? <==>
      && StringIds(GetOr(s, "broader", JNull)).Success?
      && StringIds(GetOr(s, "narrower", JNull)).Success?
      && ScoreOf(GetOr(hf, "_score", JNull)).Success?
    ensures r.Success? ==>
      && r.value.iri == GetOr(s, "iri", JNull)
      && r.value.scheme == GetOr(s, "scheme", JNull)
      && (forall b :: r.value.topConcept == Some(b) <==> Get(s, "top_concept") == Some(JBool(b)))
      && (r.value.langSet.Some? <==> GetOr(s, "lang_set", JNull).JArr?)
      && (GetOr(s, "lang_set", JNull).JArr? ==>
            r.value.langSet == Some(Map(GetOr(s, "lang_set", JNull).items, PyStr)))
      && StringIds(GetOr(s, "broader", JNull)) == Success(r.value.broaderIds)
      && StringIds(GetOr(s, "narrower", JNull)) == Success(r.value.narrowerIds)
      && ScoreOf(GetOr(hf, "_score", JNull)) == Success(r.value.score)
      && r.value.hl == Or(GetOr(hf, "highlight", JNull), JObj([]))
      && r.value.prefMap == GetOr(s, "pref", JNull)
      && r.value.altMap == GetOr(s, "alt", JNull)
      && r.value.descMap == GetOr(s, "description", JNull)
  {
    var top := match Get(s, "top_concept") case Some(JBool(b)) => Some(b) case _ => None;
    var langSet := match GetOr(s, "lang_set", JNull)
      case JArr(xs) => Some(Map(xs, PyStr))
      case _ => None;
    var broader :- StringIds(GetOr(s, "broader", JNull));
    var narrower :- StringIds(GetOr(s, "narrower", JNull));
    var score :- ScoreOf(GetOr(hf, "_score", JNull));
    var hl := Or(GetOr(hf, "highlight", JNull), JObj([]));
    Success(HitParts(GetOr(s, "iri", JNull), GetOr(s, "scheme", JNull), top, langSet,
                     broader, narrower, score, hl,
                     GetOr(s, "pref", JNull), GetOr(s, "alt", JNull), GetOr(s, "description", JNull)))
  }

  function RelIds(ids: seq<string>): (r: seq<Relation>)
    ensures |r| == |ids|
    ensures forall i :: 0 <= i < |ids| ==> r[i] == RelId(ids[i])
  {
    seq(|ids|, i requires 0 <= i < |ids| => RelId(ids[i]))
  }

  /** The concept `_concept_from_parts(parts, display_langs)` builds. The IRI is `str` of
      whatever the hit had, so a hit without one gets the IRI "None". */
  function ConceptOf(parts: HitParts, displayLangs: Option<seq<string>>): (r: Result<Concept, PyError>)
    ensures r.Success? <==>
      && DictLiterals(parts.prefMap, "pref", displayLangs, parts.hl).Success?
      && DictLiterals(parts.altMap, "alt", displayLangs, parts.hl).Success?
      && DictLiterals(parts.descMap, "description", displayLangs, parts.hl).Success?
    ensures r.Success? ==>
      && r.value.iri == PyStr(parts.iri)
      && (r.value.scheme.None? <==> parts.scheme.JNull?)
      && (parts.scheme.JNull? || r.value.scheme == Some(PyStr(parts.scheme)))
      && r.value.vocab.None? && r.value.identifier.None?
      && r.value.topConcept == parts.topConcept
      && r.value.langSet == DedupLangSet(parts.langSet)
      && r.value.score == parts.score
      && r.value.broader == RelIds(parts.broaderIds) && r.value.narrower == RelIds(parts.narrowerIds)
      && DictLiterals(parts.prefMap, "pref", displayLangs, parts.hl) == Success(r.value.pref)
      && DictLiterals(parts.altMap, "alt", displayLangs, parts.hl) == Success(r.value.alt)
      && DictLiterals(parts.descMap, "description", displayLangs, parts.hl) == Success(r.value.description)
      && r.value.bestLabel == ChooseBestLiteral(r.value.pref, r.value.alt, r.value.description, displayLangs)
  {
    var pref :- DictLiterals(parts.prefMap, "pref", displayLangs, parts.hl);
    var alt :- DictLiterals(parts.altMap, "alt", displayLangs, parts.hl);
    var desc :- DictLiterals(parts.descMap, "description", displayLangs, parts.hl);
    var best := ChooseBestLiteral(pref, alt, desc, displayLangs);
    Success(MakeConcept(
      PyStr(parts.iri), if parts.scheme.JNull? then None else Some(PyStr(parts.scheme)),
      parts.topConcept, parts.langSet, parts.score, best, pref, alt, desc,
      RelIds(parts.broaderIds), RelIds(parts.narrowerIds)))
  }

  /** `_concept_from_parts(parts, display_langs)` */
  method ConceptFromParts(parts: HitParts, displayLangs: Option<seq<string>>)
    returns (r: Result<Concept, PyError>)
    ensures r == ConceptOf(parts, displayLangs)
  {
    var pref := DictToLiterals(parts.prefMap, "pref", displayLangs, parts.hl);
    if pref.Failure? {
      return Failure(pref.error);
    }
    var alt := DictToLiterals(parts.altMap, "alt", displayLangs, parts.hl);
    if alt.Failure? {
      return Failure(alt.error);
    }
    var desc := DictToLiterals(parts.descMap, "description", displayLangs, parts.hl);
    if desc.Failure? {
      return Failure(desc.error);
    }
    var best := ChooseBestLiteral(pref.value, alt.value, desc.value, displayLangs);
    r := Success(MakeConcept(
      PyStr(parts.iri), if parts.scheme.JNull? then None else Some(PyStr(parts.scheme)),
      parts.topConcept, parts.langSet, parts.score, best, pref.value, alt.value, desc.value,
      RelIds(parts.broaderIds), RelIds(parts.narrowerIds)));
  }

  // ---------------------------------------------------------------------------
  // The page (`_format_result`)
  // ---------------------------------------------------------------------------

  /** What `for h in data.get("hits", {}).get("hits", []) or []` visits. */
  function HitsOf(data: Json): Result<seq<Json>, PyError> {
    var outer :- DictGet(data, "hits", JObj([]));
    var hits :- DictGet(outer, "hits", JArr([]));
    Iterate(Or(hits, JArr([])))
  }

  /** `int(data.get("hits", {}).get("total", {}).get("value", 0) or 0)` */
  function TotalOf(data: Json): Result<int, PyError> {
    var outer :- DictGet(data, "hits", JObj([]));
    var total :- DictGet(outer, "total", JObj([]));
    var value :- DictGet(total, "value", JNum(Int(0)));
    PyInt(Or(value, JNum(Int(0))))
  }

  /** The concept of one hit. */
  function HitConcept(h: Json, displayLangs: Option<seq<string>>): Result<Concept, PyError> {
    var parts :- ParseHit(h);
    ConceptOf(parts, displayLangs)
  }

  function HitConverter(displayLangs: Option<seq<string>>): Json -> Result<Concept, PyError> {
    h => HitConcept(h, displayLangs)
  }

  /** The concepts of the hits, one per hit in hit order; the first hit that cannot be
      parsed or converted stops everything. */
  function ItemsOf(hits: seq<Json>, displayLangs: Option<seq<string>>): Result<seq<Concept>, PyError> {
    MapResult(hits, HitConverter(displayLangs))
  }

  /** The page `_format_result` returns; `JNull` stands for "no data" (a failed request, or a
      body that was the JSON `null`). */
  function FormattedResult(data: Json, displayLangs: Option<seq<string>>): (r: Result<SearchResults, PyError>)
    ensures data.JNull? ==> r == Success(SearchResults(0, []))
  {
    if data.JNull? then Success(SearchResults(0, []))
    else
      var hits :- HitsOf(data);
      var items :- ItemsOf(hits, displayLangs);
      var total :- TotalOf(data);
      Success(SearchResults(total, items))
  }

  /** `_format_result(data, display_langs, ...)` */
  method FormatResult(data: Json, displayLangs: Option<seq<string>>)
    returns (r: Result<SearchResults, PyError>)
    ensures r == FormattedResult(data, displayLangs)
  {
    if data.JNull? {
      return Success(SearchResults(0, []));
    }
    var hits := HitsOf(data);
    if hits.Failure? {
      return Failure(hits.error);
    }
    var hs := hits.value;
    var items: seq<Concept> := [];
    ghost var f := HitConverter(displayLangs);
    for i := 0 to |hs|
      invariant MapResult(hs[..i], f) == Success(items)
    {
      MapResultSnoc(hs, i, f);
      var parts := ParseHit(hs[i]);
      if parts.Failure? {
        assert f(hs[i]) == Failure(parts.error);
        MapResultFailurePersists(hs, i + 1, f);
        return Failure(parts.error);
      }
      var c := ConceptFromParts(parts.value, displayLangs);
      assert f(hs[i]) == c;
      if c.Failure? {
        MapResultFailurePersists(hs, i + 1, f);
        return Failure(c.error);
      }
      items := items + [c.value];
    }
    assert hs[..|hs|] == hs;
    var total := TotalOf(data);
    if total.Failure? {
      return Failure(total.error);
    }
    r := Success(SearchResults(total.value, items));
  }

  /** The whole page: with data, one concept per hit in order and the reported total. */
  lemma FormattedPage(data: Json, displayLangs: Option<seq<string>>)
    requires !data.JNull?
    requires FormattedResult(data, displayLangs).Success?
    ensures var page := FormattedResult(data, displayLangs).value;
      && HitsOf(data).Success?
      && TotalOf(data) == Success(page.total)
      && |page.items| == |HitsOf(data).value|
      && forall i :: 0 <= i < |page.items| ==>
           HitConcept(HitsOf(data).value[i], displayLangs) == Success(page.items[i])
  {
    MapResultElementwise(HitsOf(data).value, HitConverter(displayLangs));
  }
}
