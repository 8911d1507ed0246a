/** The SKOS loader: turns one SKOS concept of an RDF graph into the JSON document that is
    indexed in OpenSearch (labels and descriptions grouped by language, the sorted language
    set, the hierarchy links and the `search_all` text). */
module LoadSkos {
  import opened Wrappers
  import opened Seqs
  import opened Text

  // ---------------------------------------------------------------------------
  // `_norm_text`: `re.sub(r"\s+", " ", s).strip()`
  // ---------------------------------------------------------------------------

  /** `re.sub(r"\s+", " ", s)`: every maximal run of whitespace becomes one space. */
  function Collapse(s: string): (r: string)
    ensures s == [] ==> r == []
    ensures r != [] ==> s != [] && (IsSpace(r[0]) <==> IsSpace(s[0]))
    decreases |s|
  {
    if s == [] then []
    else if IsSpace(s[0]) then " " + Collapse(StripLeft(s[1..]))
    else [s[0]] + Collapse(s[1..])
  }

  /** `_norm_text(s)` */
  function NormText(s: string): string {
    Strip(Collapse(s))
  }

  /** The only whitespace is a plain space, and no two whitespace characters are adjacent. */
  predicate SingleSpaced(s: string) {
    && (forall i :: 0 <= i < |s| && IsSpace(s[i]) ==> s[i] == ' ')
    && (forall i :: 0 < i < |s| && IsSpace(s[i]) ==> !IsSpace(s[i - 1]))
  }

  /** What `_norm_text` produces: trimmed, with single spaces between the words. */
  predicate Normalized(s: string) {
    NoEdgeSpace(s) && SingleSpaced(s)
  }

  lemma SingleSpacedCons(ch: char, c: string)
    requires SingleSpaced(c)
    requires IsSpace(ch) ==> ch == ' ' && (c == [] || !IsSpace(c[0]))
    ensures SingleSpaced([ch] + c)
  {
    assert forall i :: 1 <= i < |c| + 1 ==> ([ch] + c)[i] == c[i - 1];
  }

  lemma SingleSpacedSlice(s: string, i: nat, j: nat)
    requires SingleSpaced(s) && i <= j <= |s|
    ensures SingleSpaced(s[i..j])
  {
    assert forall k :: 0 <= k < j - i ==> s[i..j][k] == s[i + k];
  }

  lemma {:induction false} CollapseSingleSpaced(s: string)
    ensures SingleSpaced(Collapse(s))
    decreases |s|
  {
    if s != [] {
      if IsSpace(s[0]) {
        var l := StripLeft(s[1..]);
        CollapseSingleSpaced(l);
        SingleSpacedCons(' ', Collapse(l));
      } else {
        CollapseSingleSpaced(s[1..]);
        SingleSpacedCons(s[0], Collapse(s[1..]));
      }
    }
  }

  /** `_norm_text` leaves no whitespace at either end and turns every inner whitespace run
      into exactly one space. */
  lemma NormTextShape(s: string)
    ensures Normalized(NormText(s))
  {
    CollapseSingleSpaced(s);
    StripSingleSpaced(Collapse(s));
  }

  /** Stripping single-spaced text leaves it normalised. */
  lemma StripSingleSpaced(c: string)
    requires SingleSpaced(c)
    ensures Normalized(Strip(c))
  {
    var i := StripSlice(c);
    SingleSpacedSlice(c, i, i + |Strip(c)|);
  }

  lemma {:induction false} CollapseOfSingleSpaced(t: string)
    requires SingleSpaced(t)
    ensures Collapse(t) == t
    decreases |t|
  {
    if t != [] {
      CollapseHead(t);
      SingleSpacedSlice(t, 1, |t|);
      CollapseOfSingleSpaced(t[1..]);
      assert t == [t[0]] + t[1..];
    }
  }

  /** On single-spaced text `Collapse` goes one character at a time. */
  lemma CollapseHead(t: string)
    requires SingleSpaced(t) && t != []
    ensures Collapse(t) == [t[0]] + Collapse(t[1..])
  {
    if IsSpace(t[0]) {
      SpaceThenWord(t);
      StripLeftNoSpace(t[1..]);
    }
  }

  lemma SpaceThenWord(t: string)
    requires SingleSpaced(t) && t != [] && IsSpace(t[0])
    ensures t[0] == ' ' && (t[1..] == [] || !IsSpace(t[1..][0]))
  {
    if |t| > 1 {
      assert t[1..][0] == t[1];
    }
  }

  /** Normalising twice is normalising once. */
  lemma NormTextIdempotent(s: string)
    ensures NormText(NormText(s)) == NormText(s)
  {
    var t := NormText(s);
    NormTextShape(s);
    CollapseOfSingleSpaced(t);
    StripOfTrimmed(t);
  }

  /** The characters of `s` that are not whitespace, in order. */
  function NonSpace(s: string): string {
    if s == [] then [] else (if IsSpace(s[0]) then [] else [s[0]]) + NonSpace(s[1..])
  }

  lemma {:induction false} NonSpaceAppend(a: string, b: string)
    ensures NonSpace(a + b) == NonSpace(a) + NonSpace(b)
    decreases |a|
  {
    if a != [] {
      assert (a + b)[1..] == a[1..] + b;
      NonSpaceAppend(a[1..], b);
    } else {
      assert a + b == b;
    }
  }

  lemma {:induction false} NonSpaceOfBlank(s: string)
    requires forall k :: 0 <= k < |s| ==> IsSpace(s[k])
    ensures NonSpace(s) == []
    decreases |s|
  {
    if s != [] {
      NonSpaceOfBlank(s[1..]);
    }
  }

  lemma {:induction false} StripLeftKeepsNonSpace(s: string)
    ensures NonSpace(StripLeft(s)) == NonSpace(s)
    decreases |s|
  {
    if s != [] && IsSpace(s[0]) {
      StripLeftKeepsNonSpace(s[1..]);
    }
  }

  lemma StripRightKeepsNonSpace(s: string)
    ensures NonSpace(StripRight(s)) == NonSpace(s)
  {
    var r := StripRight(s);
    assert s == r + s[|r|..];
    NonSpaceAppend(r, s[|r|..]);
    StripRightSpaces(s);
    forall k | 0 <= k < |s| - |r|
      ensures IsSpace(s[|r|..][k])
    {
      assert s[|r|..][k] == s[|r| + k];
    }
    NonSpaceOfBlank(s[|r|..]);
  }

  lemma {:induction false} CollapseKeepsNonSpace(s: string)
    ensures NonSpace(Collapse(s)) == NonSpace(s)
    decreases |s|
  {
    if s != [] {
      if IsSpace(s[0]) {
        var l := StripLeft(s[1..]);
        CollapseKeepsNonSpace(l);
        StripLeftKeepsNonSpace(s[1..]);
        assert (" " + Collapse(l))[1..] == Collapse(l);
      } else {
        CollapseKeepsNonSpace(s[1..]);
        assert ([s[0]] + Collapse(s[1..]))[1..] == Collapse(s[1..]);
      }
    }
  }

  /** `_norm_text` only removes and replaces whitespace: the other characters come out
      unchanged and in order. */
  lemma NormTextKeepsNonSpace(s: string)
    ensures NonSpace(NormText(s)) == NonSpace(s)
  {
    var c := Collapse(s);
    CollapseKeepsNonSpace(s);
    StripLeftKeepsNonSpace(c);
    StripRightKeepsNonSpace(StripLeft(c));
  }

  /** A word: a non-empty run of characters none of which is whitespace. */
  predicate IsWord(w: string) {
    w != [] && forall k :: 0 <= k < |w| ==> !IsSpace(w[k])
  }

  /** The longest prefix of `s` without whitespace. */
  function Word(s: string): (w: string)
    ensures |w| <= |s| && w == s[..|w|]
    ensures forall k :: 0 <= k < |w| ==> !IsSpace(w[k])
    ensures |w| < |s| ==> IsSpace(s[|w|])
    ensures s != [] && !IsSpace(s[0]) ==> w != []
    decreases |s|
  {
    if s == [] || IsSpace(s[0]) then [] else [s[0]] + Word(s[1..])
  }

  /** The words of `s`: its maximal runs of non-whitespace characters, in order (what
      `s.split()` returns). */
  function Words(s: string): (ws: seq<string>)
    ensures forall i :: 0 <= i < |ws| ==> IsWord(ws[i])
    decreases |s|
  {
    if s == [] then []
    else if IsSpace(s[0]) then Words(s[1..])
    else
      var w := Word(s);
      [w] + Words(s[|w|..])
  }

  /** `_norm_text(s)` is `" ".join(s.split())`: the words of `s`, in order, with exactly one
      space between two words and none before the first or after the last. */
  lemma NormTextWords(s: string)
    ensures NormText(s) == JoinSpace(Words(s))
  {
    var pad, tail := CollapseShape(s);
    JoinedWordsTrimmed(Words(s));
    StripPadded(pad, JoinSpace(Words(s)), tail);
  }

  /** `Collapse` gives the words joined by single spaces, with at most one space before
      and one after. */
  lemma CollapseShape(s: string) returns (pad: string, tail: string)
    ensures forall k :: 0 <= k < |pad| ==> IsSpace(pad[k])
    ensures forall k :: 0 <= k < |tail| ==> IsSpace(tail[k])
    ensures Collapse(s) == pad + JoinSpace(Words(s)) + tail
  {
    var t := StripLeft(s);
    pad := LeadingRun(s);
    WordsStripLeft(s);
    CollapseWords(t);
    tail := if t != [] && IsSpace(t[|t| - 1]) then " " else "";
    Prepend(Collapse(s), Collapse(t), pad, JoinSpace(Words(t)) + tail);
  }

  lemma JoinedWordsTrimmed(ws: seq<string>)
    requires forall i :: 0 <= i < |ws| ==> IsWord(ws[i])
    ensures NoEdgeSpace(JoinSpace(ws))
  {
    WordsNormalized(ws);
    JoinNormalized(ws);
  }

  /** `Collapse` turns leading whitespace into at most one space. */
  lemma LeadingRun(s: string) returns (pad: string)
    ensures forall k :: 0 <= k < |pad| ==> IsSpace(pad[k])
    ensures Collapse(s) == pad + Collapse(StripLeft(s))
  {
    if s != [] && IsSpace(s[0]) {
      pad := " ";
      assert StripLeft(s) == StripLeft(s[1..]);
    } else {
      pad := "";
      assert StripLeft(s) == s;
    }
  }

  lemma Prepend(cs: string, ct: string, pad: string, rest: string)
    requires cs == pad + ct && ct == rest
    ensures cs == pad + rest
  {
  }

  /** Leading whitespace has no words in it. */
  lemma {:induction false} WordsStripLeft(s: string)
    ensures Words(StripLeft(s)) == Words(s)
    decreases |s|
  {
    if s != [] && IsSpace(s[0]) {
      WordsStripLeft(s[1..]);
    }
  }

  lemma WordsNormalized(ws: seq<string>)
    requires forall i :: 0 <= i < |ws| ==> IsWord(ws[i])
    ensures forall i :: 0 <= i < |ws| ==> ws[i] != "" && Normalized(ws[i])
  {
  }

  /** On text that starts with a word, `Collapse` copies the word and goes on after it. */
  lemma {:induction false} CollapseWord(s: string)
    requires s != [] && !IsSpace(s[0])
    ensures Collapse(s) == Word(s) + Collapse(s[|Word(s)|..])
    decreases |s|
  {
    var r := s[1..];
    assert Collapse(s) == [s[0]] + Collapse(r);
    assert Word(s) == [s[0]] + Word(r);
    if r == [] || IsSpace(r[0]) {
      assert Word(r) == [];
      assert s[|Word(s)|..] == r;
    } else {
      CollapseWord(r);
      assert s[|Word(s)|..] == r[|Word(r)|..];
    }
  }

  /** `Collapse` of text that starts with a word (or is empty): the words joined by single
      spaces, and one more space when the text ends in whitespace. */
  lemma {:induction false} CollapseWords(t: string)
    requires t == [] || !IsSpace(t[0])
    ensures Collapse(t) == JoinSpace(Words(t)) + (if t != [] && IsSpace(t[|t| - 1]) then " " else "")
    decreases |t|
  {
    if t != [] {
      var w := Word(t);
      var rest := t[|w|..];
      CollapseWord(t);
      assert Words(t) == [w] + Words(rest);
      if rest == [] {
        assert w == t;
      } else {
        assert t[|t| - 1] == rest[|rest| - 1];
        var u := SpaceRun(rest);
        if u != [] {
          CollapseWords(u);
          JoinSpaceCons(w, Words(u));
          var tail := if IsSpace(u[|u| - 1]) then " " else "";
          Regroup(Collapse(t), Collapse(rest), Collapse(u), w, JoinSpace(Words(u)), tail);
        }
      }
    }
  }

  lemma Regroup(ct: string, cr: string, cu: string, w: string, j: string, tail: string)
    requires ct == w + cr && cr == " " + cu && cu == j + tail
    ensures ct == (w + " " + j) + tail
  {
  }

  /** Text that starts with whitespace: `Collapse` puts one space for the run and goes on
      with the rest `u`, which holds the same words and ends as the text does. */
  lemma SpaceRun(rest: string) returns (u: string)
    requires rest != [] && IsSpace(rest[0])
    ensures u == StripLeft(rest) && |u| < |rest|
    ensures Collapse(rest) == " " + Collapse(u)
    ensures Words(rest) == Words(u)
    ensures u == [] ==> IsSpace(rest[|rest| - 1])
    ensures u != [] ==> !IsSpace(u[0]) && Words(u) != [] && rest[|rest| - 1] == u[|u| - 1]
  {
    u := StripLeft(rest[1..]);
    WordsStripLeft(rest[1..]);
    StripLeftSuffix(rest[1..]);
    if u == [] {
      StripLeftSpaces(rest[1..]);
      if |rest| > 1 {
        assert rest[|rest| - 1] == rest[1..][|rest| - 2];
      }
    } else {
      assert Words(u) == [Word(u)] + Words(u[|Word(u)|..]);
    }
  }

  lemma {:induction false} JoinSpaceCons(w: string, ws: seq<string>)
    requires ws != []
    ensures JoinSpace([w] + ws) == w + " " + JoinSpace(ws)
    decreases |ws|
  {
    var p := [w] + ws;
    if |ws| > 1 {
      var n := |ws| - 1;
      assert p[..|p| - 1] == [w] + ws[..n];
      JoinSpaceCons(w, ws[..n]);
    }
  }

  /** Stripping text padded with whitespace on either side gives back the text. */
  lemma StripPadded(pad: string, j: string, tail: string)
    requires forall k :: 0 <= k < |pad| ==> IsSpace(pad[k])
    requires forall k :: 0 <= k < |tail| ==> IsSpace(tail[k])
    requires NoEdgeSpace(j)
    ensures Strip(pad + j + tail) == j
  {
    if j == [] {
      BlankStripsToEmpty(pad + tail);
      assert pad + j + tail == pad + tail;
    } else {
      StripLeftPadded(pad, j + tail);
      assert pad + j + tail == pad + (j + tail);
      StripRightPadded(j, tail);
    }
  }

  lemma BlankStripsToEmpty(s: string)
    requires forall k :: 0 <= k < |s| ==> IsSpace(s[k])
    ensures Strip(s) == ""
  {
    StripLeftSuffix(s);
  }

  lemma {:induction false} StripLeftPadded(pad: string, s: string)
    requires forall k :: 0 <= k < |pad| ==> IsSpace(pad[k])
    requires s != [] && !IsSpace(s[0])
    ensures StripLeft(pad + s) == s
    decreases |pad|
  {
    if pad != [] {
      assert (pad + s)[1..] == pad[1..] + s;
      StripLeftPadded(pad[1..], s);
    } else {
      assert pad + s == s;
    }
  }

  lemma {:induction false} StripRightPadded(j: string, tail: string)
    requires forall k :: 0 <= k < |tail| ==> IsSpace(tail[k])
    requires j != [] && !IsSpace(j[|j| - 1])
    ensures StripRight(j + tail) == j
    decreases |tail|
  {
    if tail != [] {
      var n := |tail| - 1;
      assert (j + tail)[..|j + tail| - 1] == j + tail[..n];
      StripRightPadded(j, tail[..n]);
    } else {
      assert j + tail == j;
    }
  }

  // ---------------------------------------------------------------------------
  // The graph
  // ---------------------------------------------------------------------------

  const Skos := "http://www.w3.org/2004/02/skos/core#"

  /** An RDF object as the loader sees it: a literal with its lexical form and optional
      language tag, or any other node (an IRI or a blank node), known by its string form. */
  datatype Node = Literal(lexical: string, language: Option<string>) | Resource(name: string)

  datatype Triple = Triple(subject: string, pred: string, obj: Node)

  /** `graph.objects(subject, predicate)`, in the order the triples are given. */
  function Objects(g: seq<Triple>, subject: string, pred: string): seq<Node> {
    if g == [] then []
    else
      var t := g[|g| - 1];
      Objects(g[..|g| - 1], subject, pred)
        + if t.subject == subject && t.pred == pred then [t.obj] else []
  }

  /** `str(node)` */
  function StrOf(n: Node): string {
    match n
    case Literal(lexical, _) => lexical
    case Resource(name) => name
  }

  // ---------------------------------------------------------------------------
  // `_collect_lang_literals`
  // ---------------------------------------------------------------------------

  /** A dict from language tags to lists of texts: the keys in insertion order and the values. */
  datatype LangMap = LangMap(keys: seq<string>, vals: map<string, seq<string>>)

  /** What a Python dict always is: each key once, and a value for exactly the listed keys. */
  predicate ValidMap(m: LangMap) {
    && NoDup(m.keys)
    && (forall k :: k in m.vals ==> k in m.keys)
    && (forall k :: k in m.keys ==> k in m.vals)
  }

  /** `m.get(k, [])` */
  function Lookup(m: LangMap, k: string): seq<string> {
    if k in m.vals then m.vals[k] else []
  }

  /** `(lit.language or "und").lower()` */
  function LangOf(language: Option<string>): (r: string)
    ensures language.None? || language == Some("") ==> r == "und"
    ensures language.Some? && language.value != "" ==> r == ToLower(language.value)
    ensures r != ""
    ensures forall k :: 0 <= k < |r| ==> !IsUpperAscii(r[k])
  {
    if language.None? || language.value == "" then "und" else ToLower(language.value)
  }

  /** A tag that went through `LangOf` comes out of it again unchanged. */
  lemma LangOfIdempotent(language: Option<string>)
    ensures LangOf(Some(LangOf(language))) == LangOf(language)
  {
    var r := LangOf(language);
    assert ToLower(r) == r by {
      forall k | 0 <= k < |r| ensures ToLower(r)[k] == r[k] {
        assert !IsUpperAscii(r[k]);
      }
    }
  }

  /** The loop keeps a literal whose text is not empty once normalised. */
  predicate Kept(o: Node) {
    o.Literal? && NormText(o.lexical) != ""
  }

  /** The (language, text) pair the loop records for one object, if it keeps it. */
  function PairOf(o: Node): seq<(string, string)> {
    if Kept(o) then [(LangOf(o.language), NormText(o.lexical))] else []
  }

  /** The pairs the loop records, in order. */
  function Tagged(objs: seq<Node>): seq<(string, string)> {
    FlatMap(objs, PairOf)
  }

  /** One turn of the loop: a new language gets a list holding the text, a known one gets
      the text appended unless it already holds it. */
  function AddText(m: LangMap, lang: string, txt: string): LangMap {
    if lang !in m.vals then LangMap(m.keys + [lang], m.vals[lang := [txt]])
    else if txt in m.vals[lang] then m
    else m.(vals := m.vals[lang := m.vals[lang] + [txt]])
  }

  /** The dict the loop builds from the recorded pairs. */
  function Group(ps: seq<(string, string)>): LangMap {
    if ps == [] then LangMap([], map[])
    else
      var p := ps[|ps| - 1];
      AddText(Group(ps[..|ps| - 1]), p.0, p.1)
  }

  /** What `_collect_lang_literals` returns for these objects. */
  function Collected(objs: seq<Node>): LangMap {
    Group(Tagged(objs))
  }

  /** The languages of the pairs, in order, repeats included. */
  function LangsIn(ps: seq<(string, string)>): seq<string> {
    if ps == [] then [] else LangsIn(ps[..|ps| - 1]) + [ps[|ps| - 1].0]
  }

  /** The texts of the pairs in language `lang`, in order, repeats included. */
  function TextsIn(ps: seq<(string, string)>, lang: string): seq<string> {
    if ps == [] then []
    else
      var p := ps[|ps| - 1];
      TextsIn(ps[..|ps| - 1], lang) + if p.0 == lang then [p.1] else []
  }

  /** A language has texts exactly when some pair carries it. */
  lemma {:induction false} LangsInTexts(ps: seq<(string, string)>, lang: string)
    ensures lang in LangsIn(ps) <==> TextsIn(ps, lang) != []
    decreases |ps|
  {
    if ps != [] {
      LangsInTexts(ps[..|ps| - 1], lang);
    }
  }

  /** The grouped dict has a key for exactly the languages of the pairs. */
  lemma {:induction false} GroupHas(ps: seq<(string, string)>, k: string)
    ensures k in Group(ps).vals <==> k in LangsIn(ps)
    decreases |ps|
  {
    if ps != [] {
      GroupHas(ps[..|ps| - 1], k);
    }
  }

  /** The keys come in order of first appearance. */
  lemma {:induction false} GroupKeys(ps: seq<(string, string)>)
    ensures Group(ps).keys == Dedup(LangsIn(ps))
    decreases |ps|
  {
    if ps != [] {
      var init, p := ps[..|ps| - 1], ps[|ps| - 1];
      GroupKeys(init);
      GroupHas(init, p.0);
      DedupSnoc(LangsIn(init), p.0);
    }
  }

  /** Under each key, that language's texts once each, in order of first appearance. */
  lemma {:induction false} GroupTexts(ps: seq<(string, string)>, k: string)
    requires k in Group(ps).vals
    ensures Group(ps).vals[k] == Dedup(TextsIn(ps, k))
    decreases |ps|
  {
    var init, p := ps[..|ps| - 1], ps[|ps| - 1];
    var m := Group(init);
    assert Group(ps) == AddText(m, p.0, p.1);
    if p.0 != k {
      assert TextsIn(ps, k) == TextsIn(init, k);
      GroupTexts(init, k);
    } else {
      var t := TextsIn(init, k);
      assert TextsIn(ps, k) == t + [p.1];
      DedupSnoc(t, p.1);
      GroupHas(init, k);
      if k in m.vals {
        GroupTexts(init, k);
      } else {
        LangsInTexts(init, k);
        assert Dedup(t) == [];
      }
    }
  }

  lemma GroupSnoc(ps: seq<(string, string)>, p: (string, string))
    ensures Group(ps + [p]) == AddText(Group(ps), p.0, p.1)
  {
    assert (ps + [p])[..|ps|] == ps;
  }

  /** The sets `seen_per_lang` hold exactly the texts of the lists in `out`. */
  ghost predicate SeenMatches(out: LangMap, seen: map<string, set<string>>) {
    && (forall k :: k in seen <==> k in out.vals)
    && (forall k, x :: k in seen ==> (x in seen[k] <==> x in out.vals[k]))
  }

  /** The end of the loop body: record a text under its language. */
  method Record(out: LangMap, seen: map<string, set<string>>, lang: string, txt: string)
    returns (out': LangMap, seen': map<string, set<string>>)
    requires SeenMatches(out, seen)
    ensures out' == AddText(out, lang, txt)
    ensures SeenMatches(out', seen')
  {
    out', seen' := out, seen;
    if lang !in out'.vals {
      out' := LangMap(out'.keys + [lang], out'.vals[lang := []]);
      seen' := seen'[lang := {}];
    }
    if txt !in seen'[lang] {
      out' := out'.(vals := out'.vals[lang := out'.vals[lang] + [txt]]);
      seen' := seen'[lang := seen'[lang] + {txt}];
    }
    assert out' == AddText(out, lang, txt) by {
      if lang !in out.vals {
        assert [] + [txt] == [txt];
        assert out'.vals == out.vals[lang := [txt]];
      }
    }
  }

  /** `_collect_lang_literals(graph, subject, predicate)` on `graph.objects(subject,
      predicate)`. */
  method CollectLangLiterals(objs: seq<Node>) returns (out: LangMap)
    ensures out == Collected(objs)
  {
    out := LangMap([], map[]);
    var seenPerLang: map<string, set<string>> := map[];
    assert objs[..0] == [];
    for i := 0 to |objs|
      invariant out == Group(Tagged(objs[..i]))
      invariant SeenMatches(out, seenPerLang)
    {
      FlatMapSnoc(objs, i, PairOf);
      var lit := objs[i];
      if !lit.Literal? {
        assert Tagged(objs[..i]) + [] == Tagged(objs[..i]);
        continue;
      }
      var lang := LangOf(lit.language);
      var txt := NormText(lit.lexical);
      if txt == "" {
        assert Tagged(objs[..i]) + [] == Tagged(objs[..i]);
        continue;
      }
      GroupSnoc(Tagged(objs[..i]), (lang, txt));
      out, seenPerLang := Record(out, seenPerLang, lang, txt);
    }
    assert objs[..|objs|] == objs;
  }

  /** The texts of a language are exactly the texts its pairs carry. */
  lemma {:induction false} TextsInMembers(ps: seq<(string, string)>, lang: string, x: string)
    ensures x in TextsIn(ps, lang) <==> (lang, x) in ps
    decreases |ps|
  {
    if ps != [] {
      var init := ps[..|ps| - 1];
      TextsInMembers(init, lang, x);
      assert ps == init + [ps[|ps| - 1]];
    }
  }

  /** The pairs recorded are those of the kept literals: a lower-case language tag ("und" when
      the literal has none) and the literal's normalised, non-empty text. */
  lemma TaggedPairs(objs: seq<Node>, lang: string, txt: string)
    ensures (lang, txt) in Tagged(objs) <==>
      exists o :: o in objs && Kept(o) && LangOf(o.language) == lang && NormText(o.lexical) == txt
  {
    FlatMapMembers(objs, PairOf, (lang, txt));
  }

  /** What every value of `_collect_lang_literals` holds for a language present in it: a
      non-empty list, without repeats, of normalised non-empty texts, which are exactly the
      texts of the kept literals of that language, in order of first appearance. */
  lemma CollectedEntry(objs: seq<Node>, lang: string)
    requires lang in Collected(objs).vals
    ensures var texts := Collected(objs).vals[lang];
      && texts == Dedup(TextsIn(Tagged(objs), lang))
      && texts != []
      && NoDup(texts)
      && forall x :: x in texts <==> (lang, x) in Tagged(objs)
  {
    var ps := Tagged(objs);
    GroupTexts(ps, lang);
    GroupHas(ps, lang);
    LangsInTexts(ps, lang);
    forall x ensures x in Dedup(TextsIn(ps, lang)) <==> (lang, x) in ps {
      TextsInMembers(ps, lang, x);
    }
  }

  /** The keys of `_collect_lang_literals` are the languages of the kept literals, each once,
      in order of first appearance, and they are exactly the keys that hold a value. */
  lemma CollectedKeys(objs: seq<Node>)
    ensures Collected(objs).keys == Dedup(LangsIn(Tagged(objs)))
    ensures ValidMap(Collected(objs))
  {
    var ps := Tagged(objs);
    GroupKeys(ps);
    forall k ensures k in Group(ps).vals <==> k in Group(ps).keys {
      GroupHas(ps, k);
    }
  }

  // ---------------------------------------------------------------------------
  // `_unique_flatten`
  // ---------------------------------------------------------------------------

  /** `[x for it in iterables for x in it]` */
  function Flatten(xss: seq<seq<string>>): seq<string> {
    if xss == [] then [] else Flatten(xss[..|xss| - 1]) + xss[|xss| - 1]
  }

  /** `[x for x in xs if x]` */
  function Truthy(xs: seq<string>): seq<string> {
    if xs == [] then []
    else Truthy(xs[..|xs| - 1]) + if xs[|xs| - 1] != "" then [xs[|xs| - 1]] else []
  }

  lemma TruthySnoc(xs: seq<string>, x: string)
    ensures Truthy(xs + [x]) == Truthy(xs) + if x != "" then [x] else []
  {
    assert (xs + [x])[..|xs|] == xs;
  }

  /** One turn of the inner loop of `_unique_flatten`. */
  lemma UniqueStep(prev: seq<string>, x: string)
    ensures var r := Dedup(Truthy(prev));
      Dedup(Truthy(prev + [x])) == if x == "" || x in r then r else r + [x]
  {
    TruthySnoc(prev, x);
    if x != "" {
      DedupSnoc(Truthy(prev), x);
    } else {
      assert Truthy(prev) + [] == Truthy(prev);
    }
  }

  lemma FlattenSnoc(xss: seq<seq<string>>, i: nat)
    requires i < |xss|
    ensures Flatten(xss[..i + 1]) == Flatten(xss[..i]) + xss[i]
  {
    assert xss[..i + 1][..i] == xss[..i];
  }

  /** `_unique_flatten(*iterables)` */
  method UniqueFlatten(iterables: seq<seq<string>>) returns (res: seq<string>)
    ensures res == Dedup(Truthy(Flatten(iterables)))
  {
    var seen: set<string> := {};
    res := [];
    assert iterables[..0] == [];
    for i := 0 to |iterables|
      invariant res == Dedup(Truthy(Flatten(iterables[..i])))
      invariant forall x :: x in seen <==> x in res
    {
      FlattenSnoc(iterables, i);
      res, seen := AddUnique(res, seen, Flatten(iterables[..i]), iterables[i]);
    }
    assert iterables[..|iterables|] == iterables;
  }

  /** The inner loop of `_unique_flatten`: the non-empty strings of `it` not seen yet are
      appended, in order. */
  method AddUnique(res: seq<string>, seen: set<string>, ghost done: seq<string>, it: seq<string>)
    returns (res': seq<string>, seen': set<string>)
    requires res == Dedup(Truthy(done))
    requires forall x :: x in seen <==> x in res
    ensures res' == Dedup(Truthy(done + it))
    ensures forall x :: x in seen' <==> x in res'
  {
    res', seen' := res, seen;
    assert done + it[..0] == done;
    for j := 0 to |it|
      invariant res' == Dedup(Truthy(done + it[..j]))
      invariant forall x :: x in seen' <==> x in res'
    {
      var x := it[j];
      AddUniqueStep(done, it, j);
      if x == "" {
        continue;
      }
      if x !in seen' {
        res' := res' + [x];
        seen' := seen' + {x};
      }
    }
    assert it[..|it|] == it;
  }

  lemma AddUniqueStep(done: seq<string>, it: seq<string>, j: nat)
    requires j < |it|
    ensures var r := Dedup(Truthy(done + it[..j]));
      Dedup(Truthy(done + it[..j + 1])) == if it[j] == "" || it[j] in r then r else r + [it[j]]
  {
    assert done + it[..j + 1] == (done + it[..j]) + [it[j]];
    UniqueStep(done + it[..j], it[j]);
  }

  lemma {:induction false} FlattenMembers(xss: seq<seq<string>>, x: string)
    ensures x in Flatten(xss) <==> exists i :: 0 <= i < |xss| && x in xss[i]
    decreases |xss|
  {
    if xss != [] {
      var n := |xss| - 1;
      FlattenMembers(xss[..n], x);
      if x in Flatten(xss[..n]) {
        var i :| 0 <= i < n && x in xss[..n][i];
        assert x in xss[i];
      }
    }
  }

  lemma {:induction false} TruthyMembers(xs: seq<string>, x: string)
    ensures x in Truthy(xs) <==> x in xs && x != ""
    decreases |xs|
  {
    if xs != [] {
      var init := xs[..|xs| - 1];
      TruthyMembers(init, x);
      assert xs == init + [xs[|xs| - 1]];
    }
  }

  /** `_unique_flatten` returns every non-empty element of its inputs exactly once, and
      nothing else. */
  lemma UniqueFlattenMembers(iterables: seq<seq<string>>, x: string)
    ensures NoDup(Dedup(Truthy(Flatten(iterables))))
    ensures x in Dedup(Truthy(Flatten(iterables))) <==>
      x != "" && exists i :: 0 <= i < |iterables| && x in iterables[i]
  {
    TruthyMembers(Flatten(iterables), x);
    FlattenMembers(iterables, x);
  }

  // ---------------------------------------------------------------------------
  // `concept_to_doc`: the description, definitions first and then the new notes
  // ---------------------------------------------------------------------------

  /** `description.setdefault(lang, [])` */
  function SetDefault(d: LangMap, lang: string): (r: LangMap)
    ensures lang in r.vals
  {
    if lang in d.vals then d else LangMap(d.keys + [lang], d.vals[lang := []])
  }

  /** The notes loop for one language: the notes not already present are appended. */
  function MergeOne(d: LangMap, lang: string, notes: seq<string>): LangMap {
    var base := SetDefault(d, lang);
    base.(vals := base.vals[lang := AppendNew(base.vals[lang], notes)])
  }

  /** The description once the notes loop has gone through the languages `ks`. */
  function MergeNotes(d: LangMap, notes: LangMap, ks: seq<string>): LangMap {
    if ks == [] then d
    else
      var k := ks[|ks| - 1];
      MergeOne(MergeNotes(d, notes, ks[..|ks| - 1]), k, Lookup(notes, k))
  }

  /** The description `concept_to_doc` builds from the definitions and the notes. */
  function Merged(defs: LangMap, notes: LangMap): LangMap {
    MergeNotes(defs, notes, notes.keys)
  }

  /** The elements of `ks` that are not keys of `present`, in order. */
  function NewKeys(ks: seq<string>, present: map<string, seq<string>>): seq<string> {
    if ks == [] then []
    else
      var k := ks[|ks| - 1];
      NewKeys(ks[..|ks| - 1], present) + if k in present then [] else [k]
  }

  lemma MergeOneValid(d: LangMap, lang: string, notes: seq<string>)
    requires ValidMap(d)
    ensures ValidMap(MergeOne(d, lang, notes))
  {
    if lang !in d.vals {
      assert lang !in d.keys;
    }
  }

  /** What the notes loop does to one language after going through the languages `ks`,
      each listed once. */
  lemma {:induction false} MergeNotesAt(d: LangMap, notes: LangMap, ks: seq<string>, lang: string)
    requires NoDup(ks)
    ensures lang in MergeNotes(d, notes, ks).vals <==> lang in d.vals || lang in ks
    ensures Lookup(MergeNotes(d, notes, ks), lang)
      == if lang in ks then AppendNew(Lookup(d, lang), Lookup(notes, lang)) else Lookup(d, lang)
    decreases |ks|
  {
    if ks != [] {
      var init, k := ks[..|ks| - 1], ks[|ks| - 1];
      assert ks == init + [k];
      assert NoDup(init);
      MergeNotesAt(d, notes, init, lang);
      MergeOneAt(MergeNotes(d, notes, init), k, Lookup(notes, k), lang);
      if k == lang {
        assert lang !in init;
      }
    }
  }

  /** The notes loop for one language touches that language only. */
  lemma MergeOneAt(d: LangMap, k: string, vals: seq<string>, lang: string)
    ensures lang in MergeOne(d, k, vals).vals <==> lang in d.vals || lang == k
    ensures Lookup(MergeOne(d, k, vals), lang)
      == if lang == k then AppendNew(Lookup(d, lang), vals) else Lookup(d, lang)
  {
  }

  /** The keys after the notes loop: the earlier keys, then the new languages of the notes,
      in order. */
  lemma {:induction false} MergeNotesKeys(d: LangMap, notes: LangMap, ks: seq<string>)
    requires NoDup(ks)
    ensures MergeNotes(d, notes, ks).keys == d.keys + NewKeys(ks, d.vals)
    decreases |ks|
  {
    if ks != [] {
      var init, k := ks[..|ks| - 1], ks[|ks| - 1];
      assert ks == init + [k];
      assert NoDup(init);
      MergeNotesKeys(d, notes, init);
      MergeNotesAt(d, notes, init, k);
    }
  }

  lemma {:induction false} MergeNotesValid(d: LangMap, notes: LangMap, ks: seq<string>)
    requires ValidMap(d)
    ensures ValidMap(MergeNotes(d, notes, ks))
    decreases |ks|
  {
    if ks != [] {
      var init, k := ks[..|ks| - 1], ks[|ks| - 1];
      MergeNotesValid(d, notes, init);
      MergeOneValid(MergeNotes(d, notes, init), k, Lookup(notes, k));
    }
  }

  /** The description of a language is its definitions followed by its notes not among them;
      it has a key for every language with a definition or a note, the definitions' languages
      first; and it repeats no text when the definitions repeat none. */
  lemma MergedSpec(defs: LangMap, notes: LangMap, lang: string)
    requires ValidMap(defs) && ValidMap(notes)
    ensures var m := Merged(defs, notes);
      && ValidMap(m)
      && m.keys == defs.keys + NewKeys(notes.keys, defs.vals)
      && (lang in m.vals <==> lang in defs.vals || lang in notes.vals)
      && Lookup(m, lang) == AppendNew(Lookup(defs, lang), Lookup(notes, lang))
      && (NoDup(Lookup(defs, lang)) ==> NoDup(Lookup(m, lang)))
  {
    MergeNotesValid(defs, notes, notes.keys);
    MergeNotesKeys(defs, notes, notes.keys);
    MergeNotesAt(defs, notes, notes.keys, lang);
    if lang !in notes.vals {
      assert Lookup(notes, lang) == [];
      assert AppendNew(Lookup(defs, lang), []) == Lookup(defs, lang);
    }
  }

  lemma MergeNotesSnoc(d: LangMap, notes: LangMap, ks: seq<string>, i: nat)
    requires i < |ks|
    ensures MergeNotes(d, notes, ks[..i + 1])
      == MergeOne(MergeNotes(d, notes, ks[..i]), ks[i], Lookup(notes, ks[i]))
  {
    assert ks[..i + 1][..i] == ks[..i];
  }

  /** The first merge loop: every definition list is copied into an empty description. */
  method CopyDefinitions(defs: LangMap) returns (description: LangMap)
    requires ValidMap(defs)
    ensures description == defs
  {
    description := LangMap([], map[]);
    for i := 0 to |defs.keys|
      invariant description.keys == defs.keys[..i]
      invariant forall k :: k in description.vals <==> k in defs.keys[..i]
      invariant forall k :: k in description.vals ==> description.vals[k] == defs.vals[k]
    {
      var lang := defs.keys[i];
      assert defs.keys[..i + 1] == defs.keys[..i] + [lang];
      description := SetDefault(description, lang);
      description := description.(vals := description.vals[lang := description.vals[lang] + defs.vals[lang]]);
    }
    assert defs.keys[..|defs.keys|] == defs.keys;
  }

  /** One round of the notes loop: the notes of `lang` not already in its description are
      appended, in order, to it. */
  method MergeLanguage(d: LangMap, lang: string, notes: seq<string>) returns (description: LangMap)
    ensures description == MergeOne(d, lang, notes)
  {
    description := SetDefault(d, lang);
    ghost var base := description;
    var existing: set<string> := set v | v in description.vals[lang];
    for j := 0 to |notes|
      invariant description == base.(vals := base.vals[lang := AppendNew(base.vals[lang], notes[..j])])
      invariant forall v :: v in existing <==> v in description.vals[lang]
    {
      var v := notes[j];
      assert notes[..j + 1][..j] == notes[..j];
      if v !in existing {
        description := description.(vals := description.vals[lang := description.vals[lang] + [v]]);
        existing := existing + {v};
      }
    }
    assert notes[..|notes|] == notes;
  }

  /** The two merge loops of `concept_to_doc`. */
  method MergeDescription(defs: LangMap, notes: LangMap) returns (description: LangMap)
    requires ValidMap(defs) && ValidMap(notes)
    ensures description == Merged(defs, notes)
  {
    description := CopyDefinitions(defs);
    assert notes.keys[..0] == [];
    for i := 0 to |notes.keys|
      invariant description == MergeNotes(defs, notes, notes.keys[..i])
    {
      var lang := notes.keys[i];
      MergeNotesSnoc(defs, notes, notes.keys, i);
      assert notes.vals[lang] == Lookup(notes, lang);
      description := MergeLanguage(description, lang, notes.vals[lang]);
    }
    assert notes.keys[..|notes.keys|] == notes.keys;
  }

  // ---------------------------------------------------------------------------
  // `concept_to_doc`: `lang_set`, the languages of all three fields, sorted
  // ---------------------------------------------------------------------------

  /** In increasing code-point order, each string once. */
  predicate StrictlySorted(xs: seq<string>) {
    forall i, j :: 0 <= i < j < |xs| ==> StrLt(xs[i], xs[j])
  }

  /** `x` put in its place in a sorted list, unless it is already there. */
  function Insert(xs: seq<string>, x: string): seq<string> {
    if xs == [] then [x]
    else if x == xs[0] then xs
    else if StrLt(x, xs[0]) then [x] + xs
    else [xs[0]] + Insert(xs[1..], x)
  }

  /** `sorted(set(ks))` */
  function SortedSet(ks: seq<string>): seq<string> {
    if ks == [] then [] else Insert(SortedSet(ks[..|ks| - 1]), ks[|ks| - 1])
  }

  lemma {:induction false} InsertSpec(xs: seq<string>, x: string)
    requires StrictlySorted(xs)
    ensures StrictlySorted(Insert(xs, x))
    ensures forall y :: y in Insert(xs, x) <==> y in xs || y == x
    decreases |xs|
  {
    if xs != [] && x != xs[0] && !StrLt(x, xs[0]) {
      StrLtTotal(x, xs[0]);
      InsertSpec(xs[1..], x);
      var r := Insert(xs[1..], x);
      forall j | 0 <= j < |r|
        ensures StrLt(xs[0], r[j])
      {
        if r[j] != x {
          assert r[j] in xs[1..];
          var k :| 0 <= k < |xs[1..]| && xs[1..][k] == r[j];
          assert xs[k + 1] == r[j];
        }
      }
    } else if xs != [] && x != xs[0] {
      forall i, j | 0 <= i < j < |[x] + xs|
        ensures StrLt(([x] + xs)[i], ([x] + xs)[j])
      {
        if i == 0 && j > 1 {
          StrLtTransitive(x, xs[0], xs[j - 1]);
        }
      }
    }
  }

  /** `sorted(set(ks))` lists every element of `ks` once, in increasing order, and nothing
      else. */
  lemma {:induction false} SortedSetSpec(ks: seq<string>)
    ensures StrictlySorted(SortedSet(ks))
    ensures forall y :: y in SortedSet(ks) <==> y in ks
    decreases |ks|
  {
    if ks != [] {
      var init := ks[..|ks| - 1];
      SortedSetSpec(init);
      InsertSpec(SortedSet(init), ks[|ks| - 1]);
      assert ks == init + [ks[|ks| - 1]];
    }
  }

  lemma SameMembersEmpty(a: seq<string>, b: seq<string>)
    requires forall y :: y in a <==> y in b
    ensures a == [] <==> b == []
  {
    if a != [] {
      assert a[0] in b;
    }
    if b != [] {
      assert b[0] in a;
    }
  }

  /** Two strictly sorted lists with the same elements are the same list: `sorted(set(ks))`
      does not depend on how the set was built. */
  lemma {:induction false} SortedUnique(a: seq<string>, b: seq<string>)
    requires StrictlySorted(a) && StrictlySorted(b)
    requires forall y :: y in a <==> y in b
    ensures a == b
    decreases |a|
  {
    SameMembersEmpty(a, b);
    if a != [] {
      assert a[0] in b && b[0] in a;
      if a[0] != b[0] {
        var i :| 0 <= i < |a| && a[i] == b[0];
        var j :| 0 <= j < |b| && b[j] == a[0];
        StrLtAsymmetric(a[0], b[0]);
        assert false;
      }
      forall y
        ensures y in a[1..] <==> y in b[1..]
      {
        if y in a[1..] {
          var i :| 1 <= i < |a| && a[i] == y;
          StrLtIrreflexive(a[0]);
          assert y in b && y != b[0];
        }
        if y in b[1..] {
          var j :| 1 <= j < |b| && b[j] == y;
          StrLtIrreflexive(b[0]);
          assert y in a && y != a[0];
        }
      }
      SortedUnique(a[1..], b[1..]);
      assert a == [a[0]] + a[1..] && b == [b[0]] + b[1..];
    }
  }

  // ---------------------------------------------------------------------------
  // `concept_to_doc`: `search_all`, every text of the three fields once, space-joined
  // ---------------------------------------------------------------------------

  /** The values of `d` under the keys `ks`, one list after the other. */
  function ValuesAt(d: LangMap, ks: seq<string>): seq<string> {
    if ks == [] then [] else ValuesAt(d, ks[..|ks| - 1]) + Lookup(d, ks[|ks| - 1])
  }

  /** `all_texts`: the values of `pref`, then of `alt`, then of `description`. */
  function AllTexts(pref: LangMap, alt: LangMap, description: LangMap): seq<string> {
    ValuesAt(pref, pref.keys) + ValuesAt(alt, alt.keys) + ValuesAt(description, description.keys)
  }

  /** `_unique_flatten(all_texts)` */
  function SearchTexts(pref: LangMap, alt: LangMap, description: LangMap): seq<string> {
    Dedup(Truthy(Flatten([AllTexts(pref, alt, description)])))
  }

  /** `" ".join(parts)` */
  function JoinSpace(parts: seq<string>): string {
    if parts == [] then ""
    else if |parts| == 1 then parts[0]
    else JoinSpace(parts[..|parts| - 1]) + " " + parts[|parts| - 1]
  }

  /** One inner loop over `d.values()`: `all_texts.extend(vals)` for each value in key order. */
  method ExtendValues(texts: seq<string>, d: LangMap) returns (r: seq<string>)
    requires ValidMap(d)
    ensures r == texts + ValuesAt(d, d.keys)
  {
    r := texts;
    for i := 0 to |d.keys|
      invariant r == texts + ValuesAt(d, d.keys[..i])
    {
      assert d.keys[..i + 1][..i] == d.keys[..i];
      var vals := d.vals[d.keys[i]];
      assert texts + ValuesAt(d, d.keys[..i + 1]) == r + vals;
      r := r + vals;
    }
    assert d.keys[..|d.keys|] == d.keys;
  }

  lemma {:induction false} ValuesAtMembers(d: LangMap, ks: seq<string>, x: string)
    ensures x in ValuesAt(d, ks) <==> exists k :: k in ks && x in Lookup(d, k)
    decreases |ks|
  {
    if ks != [] {
      var init := ks[..|ks| - 1];
      ValuesAtMembers(d, init, x);
      assert ks == init + [ks[|ks| - 1]];
      if x in ValuesAt(d, init) {
        var k :| k in init && x in Lookup(d, k);
        assert k in ks;
      }
    }
  }

  /** Some value of `d` holds `x`. */
  ghost predicate InValues(d: LangMap, x: string) {
    exists k :: k in d.keys && x in Lookup(d, k)
  }

  /** The parts of `search_all` are the non-empty texts of the three fields, each once. */
  lemma SearchTextsSpec(pref: LangMap, alt: LangMap, description: LangMap, x: string)
    ensures NoDup(SearchTexts(pref, alt, description))
    ensures x in SearchTexts(pref, alt, description) <==>
      x != "" && (InValues(pref, x) || InValues(alt, x) || InValues(description, x))
  {
    var all := AllTexts(pref, alt, description);
    UniqueFlattenMembers([all], x);
    assert x in all <==> x in [all][0];
    ValuesAtMembers(pref, pref.keys, x);
    ValuesAtMembers(alt, alt.keys, x);
    ValuesAtMembers(description, description.keys, x);
  }

  /** Every text held is non-empty and normalised. */
  ghost predicate CleanTexts(d: LangMap) {
    forall k :: k in d.vals ==> CleanList(d.vals[k])
  }

  ghost predicate CleanList(xs: seq<string>) {
    forall x :: x in xs ==> x != "" && Normalized(x)
  }

  lemma CollectedClean(objs: seq<Node>)
    ensures CleanTexts(Collected(objs))
  {
    var m := Collected(objs);
    forall k | k in m.vals
      ensures CleanList(m.vals[k])
    {
      forall x | x in m.vals[k]
        ensures x != "" && Normalized(x)
      {
        CollectedTextClean(objs, k, x);
      }
    }
  }

  lemma CollectedTextClean(objs: seq<Node>, k: string, x: string)
    requires k in Collected(objs).vals && x in Collected(objs).vals[k]
    ensures x != "" && Normalized(x)
  {
    CollectedEntry(objs, k);
    TaggedPairs(objs, k, x);
    var o :| o in objs && Kept(o) && LangOf(o.language) == k && NormText(o.lexical) == x;
    NormTextShape(o.lexical);
  }

  lemma CleanAt(d: LangMap, k: string, x: string)
    requires CleanTexts(d) && k in d.vals && x in d.vals[k]
    ensures x != "" && Normalized(x)
  {
  }

  lemma MergedClean(defs: LangMap, notes: LangMap)
    requires ValidMap(defs) && ValidMap(notes)
    requires CleanTexts(defs) && CleanTexts(notes)
    ensures CleanTexts(Merged(defs, notes))
  {
    var m := Merged(defs, notes);
    forall k | k in m.vals
      ensures CleanList(m.vals[k])
    {
      forall x | x in m.vals[k]
        ensures x != "" && Normalized(x)
      {
        MergedTextClean(defs, notes, k, x);
      }
    }
  }

  lemma MergedTextClean(defs: LangMap, notes: LangMap, k: string, x: string)
    requires ValidMap(defs) && ValidMap(notes)
    requires CleanTexts(defs) && CleanTexts(notes)
    requires k in Merged(defs, notes).vals && x in Merged(defs, notes).vals[k]
    ensures x != "" && Normalized(x)
  {
    MergeNotesAt(defs, notes, notes.keys, k);
    assert x in Lookup(Merged(defs, notes), k);
    if x in Lookup(defs, k) {
      CleanAt(defs, k, x);
    } else {
      assert k in notes.keys && x in Lookup(notes, k);
      CleanAt(notes, k, x);
    }
  }

  lemma JoinTwo(a: string, b: string)
    requires a != "" && Normalized(a) && b != "" && Normalized(b)
    ensures Normalized(a + " " + b)
  {
    var s := a + " " + b;
    assert s[|a| + 1] == b[0];
    forall i | 0 < i < |s| && IsSpace(s[i])
      ensures s[i] == ' ' && !IsSpace(s[i - 1])
    {
      if i > |a| + 1 {
        assert s[i] == b[i - |a| - 1] && s[i - 1] == b[i - |a| - 2];
      } else if i < |a| {
        assert s[i] == a[i] && s[i - 1] == a[i - 1];
      }
    }
  }

  /** `" ".join` of non-empty normalised texts is non-empty and normalised. */
  lemma {:induction false} JoinNormalized(parts: seq<string>)
    requires forall i :: 0 <= i < |parts| ==> parts[i] != "" && Normalized(parts[i])
    ensures parts != [] ==> JoinSpace(parts) != ""
    ensures Normalized(JoinSpace(parts))
    decreases |parts|
  {
    if |parts| > 1 {
      JoinNormalized(parts[..|parts| - 1]);
      JoinTwo(JoinSpace(parts[..|parts| - 1]), parts[|parts| - 1]);
    }
  }

  // ---------------------------------------------------------------------------
  // `concept_to_doc`
  // ---------------------------------------------------------------------------

  /** The JSON document of one concept. */
  datatype ConceptDocument = ConceptDocument(
    iri: string,
    scheme: string,
    topConcept: bool,
    langSet: seq<string>,
    broader: seq<string>,
    narrower: seq<string>,
    pref: LangMap,
    alt: LangMap,
    description: LangMap,
    searchAll: string)

  /** `graph.objects(concept, SKOS[name])` */
  function SkosObjects(g: seq<Triple>, concept: string, name: string): seq<Node> {
    Objects(g, concept, Skos + name)
  }

  /** What `concept_to_doc(graph, concept, scheme)` returns. */
  function ConceptDoc(g: seq<Triple>, concept: string, scheme: Option<string>): ConceptDocument {
    var pref := Collected(SkosObjects(g, concept, "prefLabel"));
    var alt := Collected(SkosObjects(g, concept, "altLabel"));
    var description := Merged(Collected(SkosObjects(g, concept, "definition")),
                              Collected(SkosObjects(g, concept, "note")));
    ConceptDocument(
      concept,
      scheme.GetOr(""),
      SkosObjects(g, concept, "topConceptOf") != [],
      SortedSet(pref.keys + alt.keys + description.keys),
      Map(SkosObjects(g, concept, "broader"), StrOf),
      Map(SkosObjects(g, concept, "narrower"), StrOf),
      pref,
      alt,
      description,
      JoinSpace(SearchTexts(pref, alt, description)))
  }

  /** The dicts `concept_to_doc` builds are well formed. */
  lemma FieldsValid(g: seq<Triple>, concept: string)
    ensures ValidMap(Collected(SkosObjects(g, concept, "prefLabel")))
    ensures ValidMap(Collected(SkosObjects(g, concept, "altLabel")))
    ensures ValidMap(Collected(SkosObjects(g, concept, "definition")))
    ensures ValidMap(Collected(SkosObjects(g, concept, "note")))
    ensures ValidMap(Merged(Collected(SkosObjects(g, concept, "definition")),
                            Collected(SkosObjects(g, concept, "note"))))
  {
    CollectedKeys(SkosObjects(g, concept, "prefLabel"));
    CollectedKeys(SkosObjects(g, concept, "altLabel"));
    CollectedKeys(SkosObjects(g, concept, "definition"));
    CollectedKeys(SkosObjects(g, concept, "note"));
    var defs := Collected(SkosObjects(g, concept, "definition"));
    var notes := Collected(SkosObjects(g, concept, "note"));
    MergeNotesValid(defs, notes, notes.keys);
  }

  /** The definitions and notes of the concept, collected and merged. */
  method DescriptionOf(g: seq<Triple>, concept: string) returns (description: LangMap)
    ensures description == Merged(Collected(SkosObjects(g, concept, "definition")),
                                  Collected(SkosObjects(g, concept, "note")))
  {
    var defs := CollectLangLiterals(SkosObjects(g, concept, "definition"));
    var notes := CollectLangLiterals(SkosObjects(g, concept, "note"));
    FieldsValid(g, concept);
    description := MergeDescription(defs, notes);
  }

  /** The `all_texts` loop and `" ".join(_unique_flatten(all_texts))`. */
  method SearchAll(pref: LangMap, alt: LangMap, description: LangMap) returns (searchAll: string)
    requires ValidMap(pref) && ValidMap(alt) && ValidMap(description)
    ensures searchAll == JoinSpace(SearchTexts(pref, alt, description))
  {
    var allTexts := ExtendValues([], pref);
    assert allTexts == ValuesAt(pref, pref.keys);
    allTexts := ExtendValues(allTexts, alt);
    allTexts := ExtendValues(allTexts, description);
    var parts := UniqueFlatten([allTexts]);
    searchAll := JoinSpace(parts);
  }

  /** `concept_to_doc(graph, concept, scheme)` */
  method ConceptToDoc(g: seq<Triple>, concept: string, scheme: Option<string>)
    returns (doc: ConceptDocument)
    ensures doc == ConceptDoc(g, concept, scheme)
  {
    var pref := CollectLangLiterals(SkosObjects(g, concept, "prefLabel"));
    var alt := CollectLangLiterals(SkosObjects(g, concept, "altLabel"));
    var description := DescriptionOf(g, concept);
    var langSet := SortedSet(pref.keys + alt.keys + description.keys);
    var broader := Map(SkosObjects(g, concept, "broader"), StrOf);
    var narrower := Map(SkosObjects(g, concept, "narrower"), StrOf);
    FieldsValid(g, concept);
    var searchAll := SearchAll(pref, alt, description);
    doc := ConceptDocument(concept, scheme.GetOr(""), SkosObjects(g, concept, "topConceptOf") != [],
      langSet, broader, narrower, pref, alt, description, searchAll);
  }

  // ---------------------------------------------------------------------------
  // Properties of the document
  // ---------------------------------------------------------------------------

  /** `graph.objects(subject, predicate)` yields exactly the objects of the matching triples. */
  lemma {:induction false} ObjectsMembers(g: seq<Triple>, subject: string, pred: string, o: Node)
    ensures o in Objects(g, subject, pred) <==> Triple(subject, pred, o) in g
    decreases |g|
  {
    if g != [] {
      var init := g[..|g| - 1];
      ObjectsMembers(init, subject, pred, o);
      assert g == init + [g[|g| - 1]];
    }
  }

  /** `top_concept` holds exactly when the concept has a `skos:topConceptOf` triple. */
  lemma ConceptDocTop(g: seq<Triple>, concept: string, scheme: Option<string>)
    ensures ConceptDoc(g, concept, scheme).topConcept <==>
      exists o :: Triple(concept, Skos + "topConceptOf", o) in g
  {
    var objs := SkosObjects(g, concept, "topConceptOf");
    if objs != [] {
      ObjectsMembers(g, concept, Skos + "topConceptOf", objs[0]);
    }
    forall o | Triple(concept, Skos + "topConceptOf", o) in g
      ensures objs != []
    {
      ObjectsMembers(g, concept, Skos + "topConceptOf", o);
    }
  }

  /** `[str(o) for o in graph.objects(concept, SKOS[name])]` holds the string forms of the
      objects of the matching triples, and nothing else. */
  lemma ObjectStrings(g: seq<Triple>, concept: string, name: string, x: string)
    ensures x in Map(SkosObjects(g, concept, name), StrOf) <==>
      exists o :: Triple(concept, Skos + name, o) in g && StrOf(o) == x
  {
    var objs := SkosObjects(g, concept, name);
    MapMembers(objs, StrOf, x);
    if x in Map(objs, StrOf) {
      var o :| o in objs && StrOf(o) == x;
      ObjectsMembers(g, concept, Skos + name, o);
    }
    if o :| Triple(concept, Skos + name, o) in g && StrOf(o) == x {
      ObjectsMembers(g, concept, Skos + name, o);
    }
  }

  /** `broader` and `narrower` hold the string forms of the objects of the concept's
      `skos:broader` and `skos:narrower` triples, and nothing else. */
  lemma ConceptDocHierarchy(g: seq<Triple>, concept: string, scheme: Option<string>, x: string)
    ensures x in ConceptDoc(g, concept, scheme).broader <==>
      exists o :: Triple(concept, Skos + "broader", o) in g && StrOf(o) == x
    ensures x in ConceptDoc(g, concept, scheme).narrower <==>
      exists o :: Triple(concept, Skos + "narrower", o) in g && StrOf(o) == x
  {
    ObjectStrings(g, concept, "broader", x);
    ObjectStrings(g, concept, "narrower", x);
  }

  /** The concept has a kept literal in language `lang` under `SKOS[name]`. */
  ghost predicate Labelled(g: seq<Triple>, concept: string, name: string, lang: string) {
    exists o :: Triple(concept, Skos + name, o) in g && Kept(o) && LangOf(o.language) == lang
  }

  /** `_collect_lang_literals` has a key for a language exactly when some kept literal has
      that language. */
  lemma CollectedLangs(g: seq<Triple>, concept: string, name: string, lang: string)
    ensures lang in Collected(SkosObjects(g, concept, name)).vals <==> Labelled(g, concept, name, lang)
  {
    var objs := SkosObjects(g, concept, name);
    var ps := Tagged(objs);
    GroupHas(ps, lang);
    LangsInTexts(ps, lang);
    if TextsIn(ps, lang) != [] {
      var x := TextsIn(ps, lang)[0];
      TextsInMembers(ps, lang, x);
      TaggedPairs(objs, lang, x);
      var o :| o in objs && Kept(o) && LangOf(o.language) == lang && NormText(o.lexical) == x;
      ObjectsMembers(g, concept, Skos + name, o);
    }
    if Labelled(g, concept, name, lang) {
      var o :| Triple(concept, Skos + name, o) in g && Kept(o) && LangOf(o.language) == lang;
      ObjectsMembers(g, concept, Skos + name, o);
      TaggedPairs(objs, lang, NormText(o.lexical));
      TextsInMembers(ps, lang, NormText(o.lexical));
    }
  }

  /** `lang_set` is sorted, repeats nothing, and holds exactly the languages of the concept's
      kept labels, definitions and notes. */
  lemma ConceptDocLangSet(g: seq<Triple>, concept: string, scheme: Option<string>, lang: string)
    ensures StrictlySorted(ConceptDoc(g, concept, scheme).langSet)
    ensures lang in ConceptDoc(g, concept, scheme).langSet <==>
      || Labelled(g, concept, "prefLabel", lang)
      || Labelled(g, concept, "altLabel", lang)
      || Labelled(g, concept, "definition", lang)
      || Labelled(g, concept, "note", lang)
  {
    var doc := ConceptDoc(g, concept, scheme);
    FieldsValid(g, concept);
    SortedSetSpec(doc.pref.keys + doc.alt.keys + doc.description.keys);
    MergedSpec(Collected(SkosObjects(g, concept, "definition")),
               Collected(SkosObjects(g, concept, "note")), lang);
    CollectedLangs(g, concept, "prefLabel", lang);
    CollectedLangs(g, concept, "altLabel", lang);
    CollectedLangs(g, concept, "definition", lang);
    CollectedLangs(g, concept, "note", lang);
  }

  /** Every text of the document is non-empty and normalised, and so is `search_all`,
      unless it is empty. */
  lemma ConceptDocTexts(g: seq<Triple>, concept: string, scheme: Option<string>)
    ensures var doc := ConceptDoc(g, concept, scheme);
      && CleanTexts(doc.pref)
      && CleanTexts(doc.alt)
      && CleanTexts(doc.description)
      && Normalized(doc.searchAll)
  {
    var doc := ConceptDoc(g, concept, scheme);
    FieldsValid(g, concept);
    CollectedClean(SkosObjects(g, concept, "prefLabel"));
    CollectedClean(SkosObjects(g, concept, "altLabel"));
    CollectedClean(SkosObjects(g, concept, "definition"));
    CollectedClean(SkosObjects(g, concept, "note"));
    MergedClean(Collected(SkosObjects(g, concept, "definition")),
                Collected(SkosObjects(g, concept, "note")));
    SearchAllNormalized(doc.pref, doc.alt, doc.description);
  }

  /** `search_all` built from fields holding only normalised texts is normalised. */
  lemma SearchAllNormalized(pref: LangMap, alt: LangMap, description: LangMap)
    requires CleanTexts(pref) && CleanTexts(alt) && CleanTexts(description)
    ensures Normalized(JoinSpace(SearchTexts(pref, alt, description)))
  {
    var parts := SearchTexts(pref, alt, description);
    forall i | 0 <= i < |parts|
      ensures parts[i] != "" && Normalized(parts[i])
    {
      var x := parts[i];
      SearchTextsSpec(pref, alt, description, x);
      if InValues(pref, x) {
        var k :| k in pref.keys && x in Lookup(pref, k);
        CleanAt(pref, k, x);
      } else if InValues(alt, x) {
        var k :| k in alt.keys && x in Lookup(alt, k);
        CleanAt(alt, k, x);
      } else {
        var k :| k in description.keys && x in Lookup(description, k);
        CleanAt(description, k, x);
      }
    }
    JoinNormalized(parts);
  }
}
