/** `csv_to_list`: the comma-separated query parameters of the HTTP routes (`lang`, `fields`,
    `display_langs`, ...) turned into lists of trimmed, non-empty items. */
module Parameters {
  import opened Wrappers
  import opened Text
  import opened Seqs

  /** Python's `s.split(",")`: the pieces between commas, empty pieces included; the empty
      string gives one empty piece. */
  function Split(s: string): (pieces: seq<string>)
    ensures |pieces| > 0
    ensures forall i :: 0 <= i < |pieces| ==> ',' !in pieces[i]
    decreases |s|
  {
    if ',' !in s then [s]
    else
      var k := CommaIndex(s);
      [s[..k]] + Split(s[k + 1..])
  }

  /** Index of the first comma of `s`. */
  function CommaIndex(s: string): (k: nat)
    requires ',' in s
    ensures k < |s| && s[k] == ',' && ',' !in s[..k]
  {
    if s[0] == ',' then 0
    else
      assert s == [s[0]] + s[1..];
      1 + CommaIndex(s[1..])
  }

  /** Python's `",".join(xs)`. */
  function Join(xs: seq<string>): string
  {
    if xs == [] then "" else if |xs| == 1 then xs[0] else xs[0] + "," + Join(xs[1..])
  }

  /** `[x.strip() for x in pieces]` */
  function StripAll(pieces: seq<string>): seq<string> {
    Map(pieces, Strip)
  }

  /** `[x for x in items if x]` */
  function NonEmpty(items: seq<string>): (r: seq<string>)
    ensures forall x :: x in r <==> x in items && x != ""
  {
    if items == [] then []
    else if items[0] == "" then NonEmpty(items[1..])
    else [items[0]] + NonEmpty(items[1..])
  }

  /** `csv_to_list(value)` */
  function CsvToList(value: Option<string>): (r: Option<seq<string>>)
    ensures value.None? ==> r.None?
    ensures r.Some? ==> r.value != []
    ensures r.Some? ==> forall i :: 0 <= i < |r.value| ==>
              r.value[i] != "" && ',' !in r.value[i] && NoEdgeSpace(r.value[i])
  {
    match value
    case None => None
    case Some(s) =>
      var out := NonEmpty(StripAll(Split(s)));
      StrippedPiecesClean(Split(s), out);
      if out == [] then None else Some(out)
  }

  /** Each surviving item is a stripped comma-free piece. */
  lemma StrippedPiecesClean(pieces: seq<string>, out: seq<string>)
    requires forall i :: 0 <= i < |pieces| ==> ',' !in pieces[i]
    requires out == NonEmpty(StripAll(pieces))
    ensures forall i :: 0 <= i < |out| ==> out[i] != "" && ',' !in out[i] && NoEdgeSpace(out[i])
  {
    forall i | 0 <= i < |out|
      ensures out[i] != "" && ',' !in out[i] && NoEdgeSpace(out[i])
    {
      assert out[i] in StripAll(pieces);
      var j :| 0 <= j < |pieces| && out[i] == StripAll(pieces)[j];
      StripIsInfix(pieces[j]);
    }
  }

  /** Stripping only removes characters. */
  lemma StripIsInfix(s: string)
    ensures forall c :: c in Strip(s) ==> c in s
  {
    var i := StripSlice(s);
    SliceMembers(s, Strip(s), i);
  }

  lemma SliceMembers(s: string, r: string, i: nat)
    requires i + |r| <= |s| && r == s[i..i + |r|]
    ensures forall c :: c in r ==> c in s
  {
    forall c | c in r ensures c in s {
      var k :| 0 <= k < |r| && r[k] == c;
      assert s[i + k] == c;
    }
  }

  /** No empty list ever comes back: when nothing survives the answer is `None`. */
  lemma {:induction false} CsvOfBlanks(s: string)
    requires forall i :: 0 <= i < |s| ==> s[i] == ',' || IsSpace(s[i])
    ensures CsvToList(Some(s)) == None
  {
    BlankPiecesVanish(s);
  }

  lemma {:induction false} BlankPiecesVanish(s: string)
    requires forall i :: 0 <= i < |s| ==> s[i] == ',' || IsSpace(s[i])
    ensures NonEmpty(StripAll(Split(s))) == []
    decreases |s|
  {
    if ',' !in s {
      BlankStripsEmpty(s);
      assert StripAll(Split(s)) == [""];
    } else {
      var k := CommaIndex(s);
      var rest := StripAll(Split(s[k + 1..]));
      BlankPiecesVanish(s[k + 1..]);
      assert forall i :: 0 <= i < k ==> s[..k][i] == s[i];
      BlankStripsEmpty(s[..k]);
      MapCons(s[..k], Split(s[k + 1..]), Strip);
      assert ([""] + rest)[1..] == rest;
    }
  }

  /** A string of blanks strips to nothing. */
  lemma BlankStripsEmpty(t: string)
    requires forall i :: 0 <= i < |t| ==> t[i] == ',' || IsSpace(t[i])
    requires ',' !in t
    ensures Strip(t) == ""
  {
    StripLeftSuffix(t);
  }

  /** Splitting undoes joining when no item contains a comma. */
  lemma {:induction false} SplitJoin(xs: seq<string>)
    requires xs != []
    requires forall i :: 0 <= i < |xs| ==> ',' !in xs[i]
    ensures Split(Join(xs)) == xs
    decreases |xs|
  {
    if |xs| > 1 {
      var s := Join(xs);
      assert s == xs[0] + "," + Join(xs[1..]);
      assert s[|xs[0]|] == ',';
      assert ',' in s;
      var k := CommaIndex(s);
      assert s[..|xs[0]|] == xs[0];
      assert k == |xs[0]|;
      assert s[k + 1..] == Join(xs[1..]);
      SplitJoin(xs[1..]);
    }
  }

  lemma {:induction false} NonEmptyOfFull(xs: seq<string>)
    requires forall i :: 0 <= i < |xs| ==> xs[i] != ""
    ensures NonEmpty(xs) == xs
    decreases |xs|
  {
    if xs != [] {
      NonEmptyOfFull(xs[1..]);
      assert xs == [xs[0]] + xs[1..];
    }
  }

  lemma {:induction false} NonEmptyAppend(a: seq<string>, b: seq<string>)
    ensures NonEmpty(a + b) == NonEmpty(a) + NonEmpty(b)
    decreases |a|
  {
    if a == [] {
      assert a + b == b;
    } else {
      assert (a + b)[1..] == a[1..] + b;
      NonEmptyAppend(a[1..], b);
    }
  }

  /** `csv_to_list(",".join(xs))` is the list of the stripped items, in the order given, when
      no item contains a comma and none is blank: each item is trimmed, not dropped. */
  lemma CsvRoundTrip(xs: seq<string>)
    requires xs != [] && CommaFree(xs)
    requires forall i :: 0 <= i < |xs| ==> Strip(xs[i]) != ""
    ensures CsvToList(Some(Join(xs))) == Some(Map(xs, Strip))
  {
    SplitJoin(xs);
    NonEmptyOfFull(Map(xs, Strip));
  }

  /** No item contains a comma. */
  predicate CommaFree(xs: seq<string>) {
    forall i :: 0 <= i < |xs| ==> ',' !in xs[i]
  }

  /** `csv_to_list` of comma-free items joined by commas: the stripped items that are not
      empty, in order, or `None` when there are none. */
  lemma CsvOfJoin(xs: seq<string>)
    requires xs != [] && CommaFree(xs)
    ensures var out := NonEmpty(Map(xs, Strip));
      CsvToList(Some(Join(xs))) == if out == [] then None else Some(out)
  {
    SplitJoin(xs);
  }

  lemma CommaFreeAround(xs: seq<string>, b: string, ys: seq<string>)
    requires CommaFree(xs) && CommaFree(ys) && ',' !in b
    ensures CommaFree(xs + [b] + ys) && CommaFree(xs + ys)
  {
    var with, without := xs + [b] + ys, xs + ys;
    forall i | 0 <= i < |with| ensures ',' !in with[i] {
      if i < |xs| {
        assert with[i] == xs[i];
      } else if i > |xs| {
        assert with[i] == ys[i - |xs| - 1];
      }
    }
    forall i | 0 <= i < |without| ensures ',' !in without[i] {
      if i < |xs| {
        assert without[i] == xs[i];
      } else {
        assert without[i] == ys[i - |xs|];
      }
    }
  }

  lemma NonEmptyDropsBlank(xs: seq<string>, b: string, ys: seq<string>)
    requires Strip(b) == ""
    ensures NonEmpty(Map(xs + [b] + ys, Strip)) == NonEmpty(Map(xs + ys, Strip))
  {
    assert Map(xs + [b] + ys, Strip) == Map(xs, Strip) + [""] + Map(ys, Strip);
    assert Map(xs + ys, Strip) == Map(xs, Strip) + Map(ys, Strip);
    NonEmptyAppend(Map(xs, Strip) + [""], Map(ys, Strip));
    NonEmptyAppend(Map(xs, Strip), [""]);
    NonEmptyAppend(Map(xs, Strip), Map(ys, Strip));
  }

  /** A blank item between two commas (or at either end) contributes nothing: taking it out
      of the input leaves the answer as it was. */
  lemma BlankItemIgnored(xs: seq<string>, b: string, ys: seq<string>)
    requires CommaFree(xs) && CommaFree(ys)
    requires forall i :: 0 <= i < |b| ==> IsSpace(b[i])
    ensures CsvToList(Some(Join(xs + [b] + ys))) == CsvToList(Some(Join(xs + ys)))
  {
    assert ',' !in b by {
      assert !IsSpace(',');
    }
    BlankStripsEmpty(b);
    if xs + ys == [] {
      assert xs + [b] + ys == [b];
      CsvOfBlanks(b);
      CsvOfBlanks("");
    } else {
      CommaFreeAround(xs, b, ys);
      CsvOfJoin(xs + [b] + ys);
      CsvOfJoin(xs + ys);
      NonEmptyDropsBlank(xs, b, ys);
    }
  }

  /** The items keep the order of the input and are trimmed one by one: nothing is
      reordered or merged. */
  lemma {:induction false} CsvKeepsOrder(a: string, b: string)
    requires ',' !in a && Strip(a) != ""
    requires ',' !in b && Strip(b) != ""
    ensures CsvToList(Some(a + "," + b)) == Some([Strip(a), Strip(b)])
    ensures CsvToList(Some(b + "," + a)) == Some([Strip(b), Strip(a)])
  {
    assert Join([a, b]) == a + "," + b;
    assert Join([b, a]) == b + "," + a;
    assert Map([a, b], Strip) == [Strip(a), Strip(b)];
    assert Map([b, a], Strip) == [Strip(b), Strip(a)];
    CsvRoundTrip([a, b]);
    CsvRoundTrip([b, a]);
  }
}
