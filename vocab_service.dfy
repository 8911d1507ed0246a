/** The vocabulary service: the start-up check of the `vocab_config` setting, the proxies
    built from it, and the `/vocabs` listing, with and without probing. */
module VocabService {
  import opened Wrappers
  import opened Seqs
  import opened Json
  import opened Vocabs
  import opened LocalOpenSearch
  import opened Text

  /** `AppSettings`, reduced to the one setting the service reads. The configuration dicts
      are shared with the proxies built on them, so a port the proxy rewrites is rewritten in
      the settings too; the model writes such changes back explicitly (`Validated` for the
      start-up check, `BuiltBack` for `_build_proxies`). */
  class AppSettings {
    var vocabConfig: Json

    constructor (vocabConfig: Json)
      ensures this.vocabConfig == vocabConfig
    {
      this.vocabConfig := vocabConfig;
    }
  }

  /** The `RuntimeError`s `validate_config_or_fail` raises, in the order it checks, plus the
      exceptions it lets through: from reading a config that is not a dict, and from a proxy
      constructor. */
  datatype ConfigError =
    | Crashed(error: PyError)
    | VocabulariesInvalid
    | EntryNotObject
    | BadIdentifier
    | DuplicateIdentifier(identifier: string)
    | MissingType(identifier: string)
    | UnsupportedType(identifier: string, vtype: string)
    | ConfigNotObject(identifier: string)
    | ProxyRejected(identifier: string, reason: ProxyError)

  /** The only type in `_TYPE_REGISTRY`. */
  const LocalOs: string := "local_os"

  /** A truthy string: `not v or not isinstance(v, str)` is false. */
  predicate NonEmptyStr(v: Json) {
    v.JStr? && v.s != ""
  }

  /** The identifier of an entry, or "" when it has none that is a string. */
  function IdOf(entry: Json): string {
    if entry.JObj? && GetOr(entry.fields, "identifier", JNull).JStr? then
      GetOr(entry.fields, "identifier", JNull).s
    else ""
  }

  /** An entry that passes every check but the duplicate one. */
  predicate EntryOk(entry: Json) {
    && entry.JObj?
    && NonEmptyStr(GetOr(entry.fields, "identifier", JNull))
    && GetOr(entry.fields, "type", JNull) == JStr(LocalOs)
    && GetOr(entry.fields, "config", JNull).JObj?
    && CfgAccepted(Or(GetOr(entry.fields, "config", JNull), JObj([])))
  }

  /** An entry a proxy can be built from with no further rewriting: its identifier, the
      supported type and a valid config. */
  predicate Runnable(entry: Json, identifier: string) {
    && entry.JObj?
    && identifier != ""
    && GetOr(entry.fields, "identifier", JNull) == JStr(identifier)
    && GetOr(entry.fields, "type", JNull) == JStr(LocalOs)
    && ValidCfg(GetOr(entry.fields, "config", JNull))
  }

  // ---------------------------------------------------------------------------
  // `validate_config_or_fail`
  // ---------------------------------------------------------------------------

  /** One turn of the loop: the entry's identifier and the entry as the proxy constructor
      leaves it, or the error. */
  function CheckEntry(entry: Json, seen: seq<string>): (r: Result<(string, Json), ConfigError>)
    ensures r.Success? <==> EntryOk(entry) && IdOf(entry) !in seen
    ensures r.Success? ==>
      && r.value.0 == IdOf(entry)
      && Runnable(r.value.1, r.value.0)
      && CheckedCfg(ConfigOf(entry)).Success?
      && r.value.1 == Rewritten(entry)
  {
    if !entry.JObj? then Failure(EntryNotObject)
    else
      var f := entry.fields;
      var identifier := GetOr(f, "identifier", JNull);
      var vtype := GetOr(f, "type", JNull);
      var vcfg := GetOr(f, "config", JNull);
      if !NonEmptyStr(identifier) then Failure(BadIdentifier)
      else if identifier.s in seen then Failure(DuplicateIdentifier(identifier.s))
      else if !NonEmptyStr(vtype) then Failure(MissingType(identifier.s))
      else if vtype.s != LocalOs then Failure(UnsupportedType(identifier.s, vtype.s))
      else if !vcfg.JObj? then Failure(ConfigNotObject(identifier.s))
      else match CheckedCfg(Or(vcfg, JObj([])))
        case Failure(e) => Failure(ProxyRejected(identifier.s, e))
        case Success(c) =>
          var f' := Set(f, "config", JObj(c));
          assert GetOr(f', "config", JNull) == JObj(c);
          assert Or(vcfg, JObj([])) == ConfigOf(entry);
          Success((identifier.s, JObj(f')))
  }

  /** The entry as its proxy's constructor leaves it: the config member replaced by the
      checked config, in place. An entry whose config does not pass is left as it is. */
  function Rewritten(entry: Json): Json {
    if entry.JObj? && CheckedCfg(ConfigOf(entry)).Success? then
      JObj(Set(entry.fields, "config", JObj(CheckedCfg(ConfigOf(entry)).value)))
    else entry
  }

  /** The rewrite touches only the port: the entry keeps its members in their order, every
      member but `config` is unchanged, and the config keeps its keys, every value but the
      port, and the port's integer. */
  lemma RewrittenOnlyPort(entry: Json)
    requires entry.JObj? && CheckedCfg(ConfigOf(entry)).Success?
    ensures var r := Rewritten(entry);
      var before := ConfigOf(entry).fields;
      && r.JObj? && Keys(r.fields) == Keys(entry.fields)
      && (forall k :: k != "config" ==> Get(r.fields, k) == Get(entry.fields, k))
      && ConfigOf(r).JObj?
      && Keys(ConfigOf(r).fields) == Keys(before)
      && (forall k :: k != "port" ==> Get(ConfigOf(r).fields, k) == Get(before, k))
      && PyInt(GetOr(ConfigOf(r).fields, "port", JNull)) == PyInt(GetOr(before, "port", JNull))
  {
    CheckedCfgRewritesOnlyPort(ConfigOf(entry));
    assert HasKey(entry.fields, "config");
  }

  /** Where the loop over the entries stands: the identifiers seen, the entries passed (as
      their proxies left them) and the error that stopped it, if any. */
  datatype Scan = Scan(seen: seq<string>, done: seq<Json>, error: Option<ConfigError>)

  /** A scan so far is consistent with the entries it went through. */
  predicate Consistent(s: Scan, entries: seq<Json>) {
    && |s.seen| == |s.done| <= |entries|
    && (s.error.None? ==> |s.done| == |entries|)
    && NoDup(s.seen)
    && forall i :: 0 <= i < |s.seen| ==>
         s.seen[i] == IdOf(entries[i]) && Runnable(s.done[i], s.seen[i]) && s.done[i] == Rewritten(entries[i])
  }

  /** One more entry: nothing happens once an error stopped the loop. */
  function ScanStep(prev: Scan, entry: Json): Scan {
    if prev.error.Some? then prev
    else
      var step := CheckEntry(entry, prev.seen);
      if step.Failure? then prev.(error := Some(step.error))
      else Scan(prev.seen + [step.value.0], prev.done + [step.value.1], None)
  }

  /** The loop of `validate_config_or_fail` over the entries. */
  function ScanEntries(entries: seq<Json>): Scan
    decreases |entries|
  {
    if entries == [] then Scan([], [], None)
    else
      var n := |entries| - 1;
      ScanStep(ScanEntries(entries[..n]), entries[n])
  }

  /** The scan only ever records an entry's own identifier, never twice, next to the entry
      rewritten into runnable form; it stops short only on an error. */
  lemma {:induction false} ScanConsistent(entries: seq<Json>)
    ensures Consistent(ScanEntries(entries), entries)
    decreases |entries|
  {
    if entries != [] {
      var n := |entries| - 1;
      ScanConsistent(entries[..n]);
      ScanStepConsistent(ScanEntries(entries[..n]), entries[..n], entries[n]);
      assert entries[..n] + [entries[n]] == entries;
    }
  }

  lemma ScanStepConsistent(prev: Scan, init: seq<Json>, entry: Json)
    requires Consistent(prev, init)
    ensures Consistent(ScanStep(prev, entry), init + [entry])
  {
    var step := CheckEntry(entry, prev.seen);
    if prev.error.None? && step.Success? {
      ScanExtended(prev, init, entry, step.value.0, step.value.1);
    }
  }

  /** A consistent scan stays consistent when it records a new identifier next to the
      rewritten entry. */
  lemma ScanExtended(prev: Scan, init: seq<Json>, entry: Json, id: string, e: Json)
    requires Consistent(prev, init) && prev.error.None?
    requires id == IdOf(entry) && id !in prev.seen && Runnable(e, id) && e == Rewritten(entry)
    ensures Consistent(Scan(prev.seen + [id], prev.done + [e], None), init + [entry])
  {
    var entries := init + [entry];
    var n := |init|;
    var seen := prev.seen + [id];
    var done := prev.done + [e];
    assert NoDup(seen) by {
      assert forall i :: 0 <= i < n ==> seen[i] == prev.seen[i];
    }
    forall i | 0 <= i < |seen|
      ensures seen[i] == IdOf(entries[i]) && Runnable(done[i], seen[i]) && done[i] == Rewritten(entries[i])
    {
      if i < n {
        assert seen[i] == prev.seen[i] && done[i] == prev.done[i] && entries[i] == init[i];
      } else {
        assert seen[i] == id && done[i] == e && entries[i] == entry;
      }
    }
  }

  lemma {:induction false} ScanFailurePersists(entries: seq<Json>, i: nat)
    requires i <= |entries|
    requires ScanEntries(entries[..i]).error.Some?
    ensures ScanEntries(entries) == ScanEntries(entries[..i])
    decreases |entries|
  {
    if i < |entries| {
      var n := |entries| - 1;
      assert entries[..n][..i] == entries[..i];
      ScanFailurePersists(entries[..n], i);
      var prev := ScanEntries(entries[..n]);
      assert prev.error.Some?;
      assert ScanEntries(entries) == ScanStep(prev, entries[n]);
    } else {
      assert entries[..i] == entries;
    }
  }

  /** Every entry is acceptable on its own. */
  predicate AllOk(entries: seq<Json>) {
    All(entries, EntryOk)
  }

  /** No identifier appears twice. */
  predicate DistinctIds(entries: seq<Json>) {
    DistinctBy(entries, IdOf)
  }

  /** While no error has occurred, the identifiers seen are those of the entries so far. */
  lemma SeenIsIds(prev: Scan, entries: seq<Json>)
    requires entries != []
    requires Consistent(prev, entries[..|entries| - 1]) && prev.error.None?
    ensures IdOf(entries[|entries| - 1]) !in prev.seen <==> LastKeyNew(entries, IdOf)
  {
    var n := |entries| - 1;
    var last := entries[n];
    if IdOf(last) in prev.seen {
      var i :| 0 <= i < |prev.seen| && prev.seen[i] == IdOf(last);
      assert IdOf(entries[..n][i]) == IdOf(last);
      assert entries[..n][i] == entries[i];
    }
    if !LastKeyNew(entries, IdOf) {
      var i :| 0 <= i < n && IdOf(entries[i]) == IdOf(last);
      assert prev.seen[i] == IdOf(entries[..n][i]);
      assert entries[..n][i] == entries[i];
    }
  }

  /** The loop gets through every entry exactly when each entry is acceptable on its own and
      no identifier appears twice. */
  lemma {:induction false} ScanPassesIff(entries: seq<Json>)
    ensures ScanEntries(entries).error.None? <==> AllOk(entries) && DistinctIds(entries)
    decreases |entries|
  {
    if entries != [] {
      var n := |entries| - 1;
      var init := entries[..n];
      var last := entries[n];
      ScanPassesIff(init);
      ScanConsistent(init);
      var prev := ScanEntries(init);
      assert ScanEntries(entries) == ScanStep(prev, last);
      AllSnoc(entries, EntryOk);
      DistinctBySnoc(entries, IdOf);
      if prev.error.None? {
        SeenIsIds(prev, entries);
      }
    }
  }

  /** `validate_config_or_fail(settings)`: the outcome, and `vocab_config` afterwards. Entries
      that passed before the loop stopped hold their rewritten configs. */
  function Validated(vocabConfig: Json): (Outcome<ConfigError>, Json) {
    var cfg := Or(vocabConfig, JObj([]));
    if !cfg.JObj? then (Fail(Crashed(AttributeError)), vocabConfig)
    else
      var entries := GetOr(cfg.fields, "vocabularies", JArr([]));
      if !entries.JArr? || entries.items == [] then (Fail(VocabulariesInvalid), vocabConfig)
      else
        var scan := ScanEntries(entries.items);
        ScanDoneBound(entries.items);
        (if scan.error.Some? then Fail(scan.error.value) else Pass, WrittenBack(cfg.fields, entries.items, scan.done))
  }

  /** The configuration with its vocabularies list replaced: the rewritten entries first, the
      entries the loop did not reach after them. */
  function WrittenBack(fields: Fields, items: seq<Json>, done: seq<Json>): (r: Json)
    requires |done| <= |items|
    ensures r.JObj? && Get(r.fields, "vocabularies") == Some(JArr(done + items[|done|..]))
  {
    JObj(Set(fields, "vocabularies", JArr(done + items[|done|..])))
  }

  /** `Validated` once the configuration is a dict with a non-empty vocabularies list. */
  lemma ValidatedOfList(vocabConfig: Json, fields: Fields, items: seq<Json>)
    requires Or(vocabConfig, JObj([])) == JObj(fields)
    requires GetOr(fields, "vocabularies", JArr([])) == JArr(items) && items != []
    ensures |ScanEntries(items).done| <= |items|
    ensures var scan := ScanEntries(items);
      Validated(vocabConfig)
      == (if scan.error.Some? then Fail(scan.error.value) else Pass, WrittenBack(fields, items, scan.done))
  {
    ScanDoneBound(items);
  }

  lemma ScanDoneBound(entries: seq<Json>)
    ensures |ScanEntries(entries).done| <= |entries|
  {
    ScanConsistent(entries);
  }

  /** The vocabularies list of a configuration, as the validation reads it. */
  function EntriesOf(vocabConfig: Json): Json {
    var cfg := Or(vocabConfig, JObj([]));
    if cfg.JObj? then GetOr(cfg.fields, "vocabularies", JArr([])) else JNull
  }

  /** The configuration passes exactly when it is a non-empty list of acceptable entries with
      distinct identifiers. */
  lemma ValidationPassesIff(vocabConfig: Json)
    ensures Validated(vocabConfig).0.Pass? <==>
      var entries := EntriesOf(vocabConfig);
      && entries.JArr? && entries.items != []
      && AllOk(entries.items) && DistinctIds(entries.items)
  {
    var cfg := Or(vocabConfig, JObj([]));
    if cfg.JObj? {
      var entries := GetOr(cfg.fields, "vocabularies", JArr([]));
      if entries.JArr? {
        ScanPassesIff(entries.items);
      }
    }
  }

  /** After a pass every entry can be run as it stands: ports are integers, and every other
      member of the configuration is as it was. */
  lemma ValidatedEntriesRunnable(vocabConfig: Json)
    requires Validated(vocabConfig).0.Pass?
    ensures var entries := EntriesOf(vocabConfig).items;
      var now := Validated(vocabConfig).1;
      && now.JObj?
      && Keys(now.fields) == Keys(Or(vocabConfig, JObj([])).fields)
      && (forall k :: k != "vocabularies" ==> Get(now.fields, k) == Get(Or(vocabConfig, JObj([])).fields, k))
      && EntriesOf(now).JArr?
      && |EntriesOf(now).items| == |entries|
      && (forall i :: 0 <= i < |entries| ==> Runnable(EntriesOf(now).items[i], IdOf(entries[i])))
      && forall i :: 0 <= i < |entries| ==> EntriesOf(now).items[i] == Rewritten(entries[i])
  {
    var cfg := Or(vocabConfig, JObj([]));
    var entries := GetOr(cfg.fields, "vocabularies", JArr([]));
    var scan := ScanEntries(entries.items);
    ScanConsistent(entries.items);
    assert scan.done + entries.items[|scan.done|..] == scan.done;
    var now := WrittenBack(cfg.fields, entries.items, scan.done);
    assert Validated(vocabConfig).1 == now;
    assert HasKey(cfg.fields, "vocabularies");
    assert now.fields != [] by {
      assert Get(now.fields, "vocabularies").Some?;
    }
    assert Or(now, JObj([])) == now;
    assert EntriesOf(now) == JArr(scan.done);
    forall i | 0 <= i < |entries.items|
      ensures Runnable(EntriesOf(now).items[i], IdOf(entries.items[i]))
      ensures EntriesOf(now).items[i] == Rewritten(entries.items[i])
    {
      assert scan.seen[i] == IdOf(entries.items[i]);
    }
  }

  /** The identifier check comes before the type check: a repeated identifier is reported as
      such whatever else is wrong with the entry. */
  lemma DuplicateReportedFirst(first: Json, second: Json)
    requires EntryOk(first)
    requires second.JObj? && GetOr(second.fields, "identifier", JNull) == JStr(IdOf(first))
    ensures ScanEntries([first, second]).error == Some(DuplicateIdentifier(IdOf(first)))
  {
    var one := ScanOfOne(first);
    assert IdOf(first) in one.seen;
    DuplicateStops(one, second);
    assert [first, second][..1] == [first];
  }

  /** An entry whose identifier was already seen stops the scan with that error. */
  lemma DuplicateStops(prev: Scan, entry: Json)
    requires prev.error.None?
    requires entry.JObj? && NonEmptyStr(GetOr(entry.fields, "identifier", JNull))
    requires IdOf(entry) in prev.seen
    ensures ScanStep(prev, entry).error == Some(DuplicateIdentifier(IdOf(entry)))
  {
  }

  /** The scan of a single acceptable entry has seen its identifier. */
  lemma ScanOfOne(first: Json) returns (one: Scan)
    requires EntryOk(first)
    ensures ScanEntries([first]) == one && one.seen == [IdOf(first)] && one.error.None?
  {
    var step := CheckEntry(first, []);
    one := Scan([step.value.0], [step.value.1], None);
    assert [first][..0] == [];
    assert [] + [step.value.0] == one.seen && [] + [step.value.1] == one.done;
  }

  /** No configuration, or one without a `vocabularies` list, is refused before any entry is
      looked at and is left as it was. */
  lemma MissingVocabulariesRefused(fields: Fields)
    requires !HasKey(fields, "vocabularies")
    ensures Validated(JObj(fields)) == (Fail(VocabulariesInvalid), JObj(fields))
    ensures Validated(JNull) == (Fail(VocabulariesInvalid), JNull)
  {
  }

  /** One turn of the loop of `validate_config_or_fail`: the checks on one entry in the
      order the source makes them, then the proxy constructor on its config. */
  method CheckOne(entry: Json, seen: seq<string>) returns (r: Result<(string, Json), ConfigError>)
    ensures r == CheckEntry(entry, seen)
  {
    if !entry.JObj? {
      return Failure(EntryNotObject);
    }
    var identifier := GetOr(entry.fields, "identifier", JNull);
    var vtype := GetOr(entry.fields, "type", JNull);
    var vcfg := GetOr(entry.fields, "config", JNull);
    if !NonEmptyStr(identifier) {
      return Failure(BadIdentifier);
    }
    if identifier.s in seen {
      return Failure(DuplicateIdentifier(identifier.s));
    }
    if !NonEmptyStr(vtype) {
      return Failure(MissingType(identifier.s));
    }
    if vtype.s != LocalOs {
      return Failure(UnsupportedType(identifier.s, vtype.s));
    }
    if !vcfg.JObj? {
      return Failure(ConfigNotObject(identifier.s));
    }
    var proxy := NewProxy(identifier, vcfg);
    if proxy.Failure? {
      return Failure(ProxyRejected(identifier.s, proxy.error));
    }
    r := Success((identifier.s, JObj(Set(entry.fields, "config", proxy.value.cfg))));
  }

  /** The scan of one more entry is one more step. */
  lemma ScanSnoc(entries: seq<Json>, i: nat)
    requires i < |entries|
    ensures ScanEntries(entries[..i + 1]) == ScanStep(ScanEntries(entries[..i]), entries[i])
  {
    assert entries[..i + 1][..i] == entries[..i];
  }

  /** The loop of `validate_config_or_fail` over the entries: it stops at the first entry that
      fails and returns the entries rewritten so far. */
  method ScanLoop(items: seq<Json>) returns (error: Option<ConfigError>, done: seq<Json>)
    ensures ScanEntries(items).error == error && ScanEntries(items).done == done
  {
    var seen: seq<string> := [];
    done := [];
    error := None;
    var i := 0;
    while i < |items| && error.None?
      invariant 0 <= i <= |items|
      invariant error.None? ==> ScanEntries(items[..i]) == Scan(seen, done, None)
      invariant error.Some? ==> ScanEntries(items) == Scan(seen, done, error)
      decreases |items| - i, if error.None? then 1 else 0
    {
      ScanSnoc(items, i);
      var step := CheckOne(items[i], seen);
      if step.Failure? {
        error := Some(step.error);
        ScanFailurePersists(items, i + 1);
      } else {
        seen := seen + [step.value.0];
        done := done + [step.value.1];
        i := i + 1;
      }
    }
    if error.None? {
      assert items[..i] == items;
    }
  }

  /** `VocabService.validate_config_or_fail(settings)` */
  method ValidateConfigOrFail(settings: AppSettings) returns (outcome: Outcome<ConfigError>)
    modifies settings
    ensures (outcome, settings.vocabConfig) == Validated(old(settings.vocabConfig))
  {
    var cfg := Or(settings.vocabConfig, JObj([]));
    if !cfg.JObj? {
      return Fail(Crashed(AttributeError));
    }
    var entries := GetOr(cfg.fields, "vocabularies", JArr([]));
    if !entries.JArr? || entries.items == [] {
      return Fail(VocabulariesInvalid);
    }
    var items := entries.items;
    var error, done := ScanLoop(items);
    outcome := if error.Some? then Fail(error.value) else Pass;
    ValidatedOfList(settings.vocabConfig, cfg.fields, items);
    settings.vocabConfig := WrittenBack(cfg.fields, items, done);
  }

  // ---------------------------------------------------------------------------
  // `_build_proxies` and `list_vocabs(probe=False)`
  // ---------------------------------------------------------------------------

  function Raising<T>(r: Result<T, PyError>): (r': Result<T, ProxyError>)
    ensures r.Success? <==> r'.Success?
    ensures r.Success? ==> r'.value == r.value
    ensures r.Failure? ==> r'.error == Raised(r.error)
  {
    match r
    case Success(v) => Success(v)
    case Failure(e) => Failure(Raised(e))
  }

  /** The identifier and the checked config of the proxy one entry gives. The entry is read
      with `entry[...]`, so a missing member is a `KeyError` and an entry that is not a dict a
      `TypeError`; a list or dict as the type cannot be looked up in the registry at all. */
  function ProxyOf(entry: Json): (r: Result<(Json, Fields), ProxyError>)
    ensures r.Success? ==>
      && entry.JObj?
      && Get(entry.fields, "identifier") == Some(r.value.0)
      && Get(entry.fields, "type") == Some(JStr(LocalOs))
      && CheckedCfg(Or(GetOr(entry.fields, "config", JNull), JObj([]))) == Success(r.value.1)
  {
    var identifier :- Raising(Index(entry, "identifier"));
    var vtype :- Raising(Index(entry, "type"));
    var vcfg :- Raising(Index(entry, "config"));
    if vtype.JArr? || vtype.JObj? then Failure(Raised(TypeError))
    else if vtype != JStr(LocalOs) then Failure(Raised(KeyError))
    else
      var c :- CheckedCfg(Or(vcfg, JObj([])));
      Success((identifier, c))
  }

  /** What `_build_proxies` builds, one proxy per entry in order, or the exception it raises. */
  function ProxySpecs(vocabConfig: Json): Result<seq<(Json, Fields)>, ProxyError> {
    var cfg := Or(vocabConfig, JObj([]));
    if !cfg.JObj? then Failure(Raised(AttributeError))
    else
      var entries :- Raising(Iterate(Or(GetOr(cfg.fields, "vocabularies", JArr([])), JArr([]))));
      MapResult(entries, ProxyOf)
  }

  /** The unprobed listing item of one proxy. */
  function VocabItem(spec: (Json, Fields)): Result<Vocabulary, ProxyError> {
    Raising(MakeVocabulary(spec.0, [], 0, Ok))
  }

  /** `list_vocabs(probe=False)`. */
  function ListedVocabs(vocabConfig: Json): Result<seq<Vocabulary>, ProxyError> {
    var specs :- ProxySpecs(vocabConfig);
    MapResult(specs, VocabItem)
  }

  /** `list_vocabs(probe=False)` of any configuration whose proxies build: it succeeds exactly
      when every identifier is a string, and then gives one available, empty item per proxy
      with that identifier, in order; otherwise pydantic's `ValueError` escapes. */
  lemma ListedOfSpecs(vocabConfig: Json, specs: seq<(Json, Fields)>)
    requires ProxySpecs(vocabConfig) == Success(specs)
    ensures ListedVocabs(vocabConfig).Success? <==> forall i :: 0 <= i < |specs| ==> specs[i].0.JStr?
    ensures ListedVocabs(vocabConfig).Failure? ==> ListedVocabs(vocabConfig).error == Raised(ValueError)
    ensures (forall i :: 0 <= i < |specs| ==> specs[i].0.JStr?) ==>
      ListedVocabs(vocabConfig) == Success(seq(|specs|, i requires 0 <= i < |specs| => Vocabulary(specs[i].0.s, [], 0, Ok)))
  {
    assert ListedVocabs(vocabConfig) == MapResult(specs, VocabItem);
    ItemsOfSpecs(specs);
  }

  lemma ItemsOfSpecs(specs: seq<(Json, Fields)>)
    ensures MapResult(specs, VocabItem).Success? <==> forall i :: 0 <= i < |specs| ==> specs[i].0.JStr?
    ensures MapResult(specs, VocabItem).Failure? ==> MapResult(specs, VocabItem).error == Raised(ValueError)
    ensures (forall i :: 0 <= i < |specs| ==> specs[i].0.JStr?) ==>
      MapResult(specs, VocabItem) == Success(seq(|specs|, i requires 0 <= i < |specs| => Vocabulary(specs[i].0.s, [], 0, Ok)))
  {
    MapResultSuccessIff(specs, VocabItem);
    if MapResult(specs, VocabItem).Failure? {
      MapResultFailureFrom(specs, VocabItem);
    } else {
      MapResultElementwise(specs, VocabItem);
      var items := MapResult(specs, VocabItem).value;
      var want := seq(|specs|, i requires 0 <= i < |specs| => Vocabulary(specs[i].0.s, [], 0, Ok));
      forall i | 0 <= i < |specs| ensures items[i] == want[i] {
        assert VocabItem(specs[i]) == Success(items[i]);
      }
      assert items == want;
    }
  }

  /** What an entry's proxy holds as its config is the entry's own config rewritten, and
      building a proxy again from the rewritten entry gives the same proxy. */
  lemma ProxyOfRewrites(entry: Json)
    requires ProxyOf(entry).Success?
    ensures entry.JObj? && CheckedCfg(ConfigOf(entry)).Success?
    ensures ProxyOf(entry).value.1 == CheckedCfg(ConfigOf(entry)).value
    ensures Rewritten(entry) == JObj(Set(entry.fields, "config", JObj(ProxyOf(entry).value.1)))
    ensures ProxyOf(Rewritten(entry)) == ProxyOf(entry)
  {
    var vcfg := Index(entry, "config").value;
    assert ConfigOf(entry) == vcfg;
    assert Truthy(vcfg);
    var c := CheckedCfg(vcfg).value;
    ValidCfgKept(JObj(c));
    var r := Rewritten(entry);
    assert Index(r, "identifier") == Index(entry, "identifier");
    assert Index(r, "type") == Index(entry, "type");
    assert Index(r, "config") == Success(JObj(c));
    ProxyOfFound(r, Index(entry, "identifier").value, JObj(c));
  }

  /** `vocab_config` after `_build_proxies`: each proxy's constructor rewrote its entry's
      config dict in place, so every entry the loop got through holds its checked config. */
  function BuiltBack(vocabConfig: Json): Json {
    var cfg := Or(vocabConfig, JObj([]));
    if !cfg.JObj? then vocabConfig
    else match Iterate(Or(GetOr(cfg.fields, "vocabularies", JArr([])), JArr([])))
      case Failure(_) => vocabConfig
      case Success(items) =>
        var k := Reach(items, ProxyOf);
        if k == 0 then vocabConfig
        else JObj(Set(cfg.fields, "vocabularies", JArr(Map(items[..k], Rewritten) + items[k..])))
  }

  /** The rewrite `_build_proxies` leaves in the settings changes nothing a later call sees:
      building the proxies again gives the same proxies, or the same exception. */
  lemma BuiltBackSameProxies(vocabConfig: Json)
    ensures ProxySpecs(BuiltBack(vocabConfig)) == ProxySpecs(vocabConfig)
    ensures ListedVocabs(BuiltBack(vocabConfig)) == ListedVocabs(vocabConfig)
    ensures forall send :: ProbedVocabs(BuiltBack(vocabConfig), send) == ProbedVocabs(vocabConfig, send)
  {
    var cfg := Or(vocabConfig, JObj([]));
    if cfg.JObj? && Iterate(Or(GetOr(cfg.fields, "vocabularies", JArr([])), JArr([]))).Success? {
      var items := Iterate(Or(GetOr(cfg.fields, "vocabularies", JArr([])), JArr([]))).value;
      if Reach(items, ProxyOf) > 0 {
        BuiltBackOfList(vocabConfig, cfg.fields, items);
        ProxySpecsOfList(vocabConfig, cfg.fields, items);
        RewrittenPrefixSame(items, ProxyOf);
      } else {
        assert BuiltBack(vocabConfig) == vocabConfig;
      }
    } else {
      assert BuiltBack(vocabConfig) == vocabConfig;
    }
  }

  /** `ProxySpecs` of a configuration whose vocabularies iterate to `items`. */
  lemma ProxySpecsOfList(vocabConfig: Json, fields: Fields, items: seq<Json>)
    requires Or(vocabConfig, JObj([])) == JObj(fields)
    requires Iterate(Or(GetOr(fields, "vocabularies", JArr([])), JArr([]))) == Success(items)
    ensures ProxySpecs(vocabConfig) == MapResult(items, ProxyOf)
  {
  }

  /** The proxies of the rewritten settings, when the build got through at least one entry. */
  lemma BuiltBackOfList(vocabConfig: Json, fields: Fields, items: seq<Json>)
    requires Or(vocabConfig, JObj([])) == JObj(fields)
    requires Iterate(Or(GetOr(fields, "vocabularies", JArr([])), JArr([]))) == Success(items)
    requires Reach(items, ProxyOf) > 0
    ensures var k := Reach(items, ProxyOf);
      ProxySpecs(BuiltBack(vocabConfig)) == MapResult(Map(items[..k], Rewritten) + items[k..], ProxyOf)
  {
    var k := Reach(items, ProxyOf);
    var ws := Map(items[..k], Rewritten) + items[k..];
    var now := Set(fields, "vocabularies", JArr(ws));
    assert BuiltBack(vocabConfig) == JObj(now);
    assert Get(now, "vocabularies") == Some(JArr(ws));
    assert Truthy(JObj(now)) by {
      assert now != [];
    }
    assert Truthy(JArr(ws)) by {
      assert ws[0] == Rewritten(items[0]);
    }
    assert Or(GetOr(now, "vocabularies", JArr([])), JArr([])) == JArr(ws);
    ProxySpecsOfList(JObj(now), now, ws);
  }

  /** Rewriting the entries a build got through leaves the build as it was. */
  lemma RewrittenPrefixSame(items: seq<Json>, spec: Json -> Result<(Json, Fields), ProxyError>)
    requires forall e {:trigger ProxyOf(e)} :: spec(e) == ProxyOf(e)
    ensures var k := Reach(items, spec);
      MapResult(Map(items[..k], Rewritten) + items[k..], spec) == MapResult(items, spec)
  {
    var k := Reach(items, spec);
    var ws := Map(items[..k], Rewritten) + items[k..];
    forall i | 0 <= i < |ws| ensures spec(ws[i]) == spec(items[i]) {
      if i < k {
        assert ws[i] == Rewritten(items[i]);
        RewrittenSameSpec(items[i], spec);
      } else {
        assert ws[i] == items[i];
      }
    }
    MapResultPointwise(ws, items, spec);
  }

  lemma RewrittenSameSpec(entry: Json, spec: Json -> Result<(Json, Fields), ProxyError>)
    requires forall e {:trigger ProxyOf(e)} :: spec(e) == ProxyOf(e)
    requires spec(entry).Success?
    ensures spec(Rewritten(entry)) == spec(entry)
  {
    assert spec(entry) == ProxyOf(entry);
    ProxyOfRewrites(entry);
    assert spec(Rewritten(entry)) == ProxyOf(Rewritten(entry));
  }

  /** A runnable entry gives its proxy without a further change to its config. */
  lemma ProxyOfRunnable(entry: Json, identifier: string)
    requires Runnable(entry, identifier)
    ensures ProxyOf(entry) == Success((JStr(identifier), GetOr(entry.fields, "config", JNull).fields))
  {
    var c := GetOr(entry.fields, "config", JNull);
    IndexOfPresent(entry, "identifier", JStr(identifier));
    IndexOfPresent(entry, "type", JStr(LocalOs));
    IndexOfPresent(entry, "config", c);
    ValidCfgKept(c);
    ProxyOfFound(entry, JStr(identifier), c);
  }

  /** An entry whose three members are there, with the supported type and an acceptable
      config, gives its proxy. */
  lemma ProxyOfFound(entry: Json, identifier: Json, vcfg: Json)
    requires Index(entry, "identifier") == Success(identifier)
    requires Index(entry, "type") == Success(JStr(LocalOs))
    requires Index(entry, "config") == Success(vcfg)
    requires CheckedCfg(Or(vcfg, JObj([]))).Success?
    ensures ProxyOf(entry) == Success((identifier, CheckedCfg(Or(vcfg, JObj([]))).value))
  {
  }

  /** Once the configuration passed validation, listing without probing cannot fail and
      gives one available, empty item per configured vocabulary, in configuration order. */
  lemma ListAfterValidation(vocabConfig: Json)
    requires Validated(vocabConfig).0.Pass?
    ensures var entries := EntriesOf(vocabConfig).items;
      ListedVocabs(Validated(vocabConfig).1)
        == Success(seq(|entries|, i requires 0 <= i < |entries| => Vocabulary(IdOf(entries[i]), [], 0, Ok)))
  {
    ValidatedEntriesRunnable(vocabConfig);
    var entries := EntriesOf(vocabConfig).items;
    var now := Validated(vocabConfig).1;
    var done := EntriesOf(now).items;
    assert done != [];
    assert Or(now, JObj([])) == now by {
      assert Keys(now.fields) == Keys(Or(vocabConfig, JObj([])).fields);
      assert HasKey(Or(vocabConfig, JObj([])).fields, "vocabularies");
    }
    assert Iterate(Or(GetOr(now.fields, "vocabularies", JArr([])), JArr([]))) == Success(done);
    ListOfRunnable(now, done, entries);
  }

  /** The proxies of a configuration whose entries are all runnable: one per entry, in order,
      with the entry's identifier and its config as it stands. */
  lemma SpecsOfRunnable(now: Json, done: seq<Json>, entries: seq<Json>) returns (specs: seq<(Json, Fields)>)
    requires now.JObj? && Or(now, JObj([])) == now
    requires Iterate(Or(GetOr(now.fields, "vocabularies", JArr([])), JArr([]))) == Success(done)
    requires |done| == |entries| && forall i :: 0 <= i < |done| ==> Runnable(done[i], IdOf(entries[i]))
    ensures ProxySpecs(now) == Success(specs)
    ensures |specs| == |entries|
    ensures forall i :: 0 <= i < |specs| ==> specs[i].0 == JStr(IdOf(entries[i])) && ValidCfg(JObj(specs[i].1))
    ensures forall i :: 0 <= i < |specs| ==> JObj(specs[i].1) == ConfigOf(done[i])
  {
    specs := seq(|done|, i requires 0 <= i < |done| =>
      (JStr(IdOf(entries[i])), GetOr(done[i].fields, "config", JNull).fields));
    forall i | 0 <= i < |done| ensures ProxyOf(done[i]) == Success(specs[i]) {
      ProxyOfRunnable(done[i], IdOf(entries[i]));
    }
    MapResultOfSuccesses(done, specs, ProxyOf);
  }

  /** Listing a configuration whose entries are all runnable gives one available, empty
      item per entry, in order. */
  lemma ListOfRunnable(now: Json, done: seq<Json>, entries: seq<Json>)
    requires now.JObj? && Or(now, JObj([])) == now
    requires Iterate(Or(GetOr(now.fields, "vocabularies", JArr([])), JArr([]))) == Success(done)
    requires |done| == |entries| && forall i :: 0 <= i < |done| ==> Runnable(done[i], IdOf(entries[i]))
    ensures ListedVocabs(now)
      == Success(seq(|entries|, i requires 0 <= i < |entries| => Vocabulary(IdOf(entries[i]), [], 0, Ok)))
  {
    var specs := SpecsOfRunnable(now, done, entries);
    var items := seq(|entries|, i requires 0 <= i < |entries| => Vocabulary(IdOf(entries[i]), [], 0, Ok));
    MapResultOfSuccesses(specs, items, VocabItem);
  }

  /** The proxies built from a configuration that passed validation: one per entry, in
      order, each with the entry's identifier and a usable config. */
  lemma ValidatedSpecs(vocabConfig: Json) returns (specs: seq<(Json, Fields)>)
    requires Validated(vocabConfig).0.Pass?
    ensures var entries := EntriesOf(vocabConfig).items;
      && ProxySpecs(Validated(vocabConfig).1) == Success(specs)
      && |specs| == |entries|
      && (forall i :: 0 <= i < |specs| ==> specs[i].0 == JStr(IdOf(entries[i])) && ValidCfg(JObj(specs[i].1)))
      && EntriesOf(Validated(vocabConfig).1).JArr?
      && |EntriesOf(Validated(vocabConfig).1).items| == |specs|
      && forall i :: 0 <= i < |specs| ==> JObj(specs[i].1) == ConfigOf(EntriesOf(Validated(vocabConfig).1).items[i])
  {
    ValidatedEntriesRunnable(vocabConfig);
    var now := Validated(vocabConfig).1;
    assert now.fields != [] by {
      assert Keys(now.fields) == Keys(Or(vocabConfig, JObj([])).fields);
      assert HasKey(Or(vocabConfig, JObj([])).fields, "vocabularies");
    }
    specs := SpecsOfEntries(now, EntriesOf(vocabConfig).items);
  }

  /** The proxies of a non-empty configuration whose entries are all runnable. */
  lemma SpecsOfEntries(now: Json, entries: seq<Json>) returns (specs: seq<(Json, Fields)>)
    requires now.JObj? && now.fields != []
    requires EntriesOf(now).JArr? && |EntriesOf(now).items| == |entries|
    requires forall i :: 0 <= i < |entries| ==> Runnable(EntriesOf(now).items[i], IdOf(entries[i]))
    ensures ProxySpecs(now) == Success(specs)
    ensures |specs| == |entries|
    ensures forall i :: 0 <= i < |specs| ==> specs[i].0 == JStr(IdOf(entries[i])) && ValidCfg(JObj(specs[i].1))
    ensures forall i :: 0 <= i < |specs| ==> JObj(specs[i].1) == ConfigOf(EntriesOf(now).items[i])
  {
    var done := EntriesOf(now).items;
    assert Or(now, JObj([])) == now;
    assert Iterate(Or(GetOr(now.fields, "vocabularies", JArr([])), JArr([]))) == Success(done);
    specs := SpecsOfRunnable(now, done, entries);
  }

  // ---------------------------------------------------------------------------
  // `list_vocabs(probe=True)`, one probe after the other
  // ---------------------------------------------------------------------------

  /** The `config` member of an entry, `JNull` when there is none. */
  function ConfigOf(entry: Json): Json {
    if entry.JObj? then GetOr(entry.fields, "config", JNull) else JNull
  }

  /** Where a proxy with configuration `cfg` sends its probe and its searches: its
      `SearchUrl()`. Only usable configs reach a proxy; the empty URL of the other case is
      never used. */
  function CfgUrl(cfg: Json): string {
    if ValidCfg(cfg) then
      HostAndPort(Get(cfg.fields, "host").value.s, PyInt(GetOr(cfg.fields, "port", JNull)).value) + "/concepts/_search"
    else ""
  }

  /** Where the proxy of `spec` sends its probe. */
  function SpecUrl(spec: (Json, Fields)): string {
    CfgUrl(JObj(spec.1))
  }

  /** An entry that passes its turn of the check keeps the URL its configuration names: the
      rewrite of the port to `int(port)` does not change the host, and the port's digits are
      those of `int(port)`. */
  lemma CheckedEntryUrl(entry: Json)
    requires entry.JObj? && CheckedCfg(ConfigOf(entry)).Success?
    ensures var cfg := ConfigOf(entry).fields;
      && Get(cfg, "host").Some? && Get(cfg, "host").value.JStr?
      && PyInt(GetOr(cfg, "port", JNull)).Success?
      && CfgUrl(ConfigOf(Rewritten(entry)))
         == UrlHost(Get(cfg, "host").value.s) + ":" + IntToDecimal(PyInt(GetOr(cfg, "port", JNull)).value)
            + "/concepts/_search"
  {
    var vcfg := ConfigOf(entry);
    var c := CheckedCfg(vcfg).value;
    CheckedCfgRewritesOnlyPort(vcfg);
    assert Get(c, "host") == Get(vcfg.fields, "host");
    assert ConfigOf(Rewritten(entry)) == JObj(c);
  }

  /** The probed item of the proxy of `spec`; building the item is the only way it fails. */
  function ProbeOfSpec(send: (string, Json) -> Response, spec: (Json, Fields)): Result<Vocabulary, ProxyError> {
    Raising(Probe(spec.0, send(SpecUrl(spec), ProbeBody)))
  }

  function Prober(send: (string, Json) -> Response): ((Json, Fields)) -> Result<Vocabulary, ProxyError> {
    spec => ProbeOfSpec(send, spec)
  }

  /** `list_vocabs(probe=True)`: the proxies' probes, in proxy order. */
  function ProbedVocabs(vocabConfig: Json, send: (string, Json) -> Response): Result<seq<Vocabulary>, ProxyError> {
    var specs :- ProxySpecs(vocabConfig);
    MapResult(specs, Prober(send))
  }

  /** Probing proxies whose identifiers are strings fails for none of them. */
  lemma ProbeAll(specs: seq<(Json, Fields)>, send: (string, Json) -> Response) returns (items: seq<Vocabulary>)
    requires forall i :: 0 <= i < |specs| ==> specs[i].0.JStr?
    ensures MapResult(specs, Prober(send)) == Success(items)
    ensures |items| == |specs|
    ensures forall i :: 0 <= i < |specs| ==> Probe(specs[i].0, send(SpecUrl(specs[i]), ProbeBody)) == Success(items[i])
  {
    items := seq(|specs|, i requires 0 <= i < |specs| => Probe(specs[i].0, send(SpecUrl(specs[i]), ProbeBody)).value);
    forall i | 0 <= i < |specs| ensures Prober(send)(specs[i]) == Success(items[i]) {
      assert Probe(specs[i].0, send(SpecUrl(specs[i]), ProbeBody)).Success?;
    }
    MapResultOfSuccesses(specs, items, Prober(send));
  }

  /** Once the configuration passed validation, the probed listing cannot fail: one item per
      configured vocabulary, in configuration order, with its identifier; an item is `ok`
      exactly when its backend answered with a body the probe could read, and an unavailable
      item reports no languages and no documents. */
  lemma ProbedAfterValidation(vocabConfig: Json, send: (string, Json) -> Response) returns (urls: seq<string>)
    requires Validated(vocabConfig).0.Pass?
    ensures var entries := EntriesOf(vocabConfig).items;
      var now := Validated(vocabConfig).1;
      var r := ProbedVocabs(now, send);
      && r.Success?
      && |r.value| == |entries| == |urls|
      && EntriesOf(now).JArr? && |EntriesOf(now).items| == |entries|
      && forall i :: 0 <= i < |entries| ==>
           var resp := send(urls[i], ProbeBody);
           && urls[i] == CfgUrl(ConfigOf(EntriesOf(now).items[i]))
           && urls[i] == CfgUrl(ConfigOf(Rewritten(entries[i])))
           && r.value[i].identifier == IdOf(entries[i])
           && (r.value[i].status == Ok <==> resp.Received? && ProbeData(resp.body).Success?)
           && (r.value[i].status == Unavailable ==> r.value[i].languages == [] && r.value[i].docCount == 0)
  {
    ValidatedEntriesRunnable(vocabConfig);
    var now := Validated(vocabConfig).1;
    assert now.fields != [] by {
      assert Keys(now.fields) == Keys(Or(vocabConfig, JObj([])).fields);
      assert HasKey(Or(vocabConfig, JObj([])).fields, "vocabularies");
    }
    urls := ProbedOfEntries(now, EntriesOf(vocabConfig).items, send);
  }

  /** The probed listing of a non-empty configuration holding the rewritten `entries`. */
  lemma ProbedOfEntries(now: Json, entries: seq<Json>, send: (string, Json) -> Response) returns (urls: seq<string>)
    requires now.JObj? && now.fields != []
    requires EntriesOf(now).JArr? && |EntriesOf(now).items| == |entries|
    requires forall i :: 0 <= i < |entries| ==> Runnable(EntriesOf(now).items[i], IdOf(entries[i]))
    requires forall i :: 0 <= i < |entries| ==> EntriesOf(now).items[i] == Rewritten(entries[i])
    ensures var r := ProbedVocabs(now, send);
      && r.Success?
      && |r.value| == |entries| == |urls|
      && forall i :: 0 <= i < |entries| ==>
           var resp := send(urls[i], ProbeBody);
           && urls[i] == CfgUrl(ConfigOf(EntriesOf(now).items[i]))
           && urls[i] == CfgUrl(ConfigOf(Rewritten(entries[i])))
           && r.value[i].identifier == IdOf(entries[i])
           && (r.value[i].status == Ok <==> resp.Received? && ProbeData(resp.body).Success?)
           && (r.value[i].status == Unavailable ==> r.value[i].languages == [] && r.value[i].docCount == 0)
  {
    var specs := SpecsOfEntries(now, entries);
    var ids := seq(|entries|, i requires 0 <= i < |entries| => IdOf(entries[i]));
    urls := ProbedOfSpecs(now, specs, ids, send);
  }

  /** The probed listing of configured specifications whose identifiers are the strings `ids`. */
  lemma ProbedOfSpecs(now: Json, specs: seq<(Json, Fields)>, ids: seq<string>, send: (string, Json) -> Response)
    returns (urls: seq<string>)
    requires ProxySpecs(now) == Success(specs)
    requires |ids| == |specs| && forall i :: 0 <= i < |specs| ==> specs[i].0 == JStr(ids[i])
    ensures var r := ProbedVocabs(now, send);
      && r.Success?
      && |r.value| == |specs| == |urls|
      && forall i :: 0 <= i < |specs| ==>
           var resp := send(urls[i], ProbeBody);
           && urls[i] == SpecUrl(specs[i])
           && r.value[i].identifier == ids[i]
           && (r.value[i].status == Ok <==> resp.Received? && ProbeData(resp.body).Success?)
           && (r.value[i].status == Unavailable ==> r.value[i].languages == [] && r.value[i].docCount == 0)
  {
    var items := ProbeAll(specs, send);
    urls := seq(|specs|, i requires 0 <= i < |specs| => SpecUrl(specs[i]));
    assert ProbedVocabs(now, send) == Success(items);
    forall i | 0 <= i < |specs|
      ensures var resp := send(urls[i], ProbeBody);
        && items[i].identifier == ids[i]
        && (items[i].status == Ok <==> resp.Received? && ProbeData(resp.body).Success?)
        && (items[i].status == Unavailable ==> items[i].languages == [] && items[i].docCount == 0)
    {
      ProbeItem(specs[i].0, ids[i], send(urls[i], ProbeBody), items[i]);
    }
  }

  lemma ProbeItem(identifier: Json, id: string, resp: Response, item: Vocabulary)
    requires identifier == JStr(id)
    requires Probe(identifier, resp) == Success(item)
    ensures item.identifier == id
    ensures item.status == Ok <==> resp.Received? && ProbeData(resp.body).Success?
    ensures item.status == Unavailable ==> item.languages == [] && item.docCount == 0
  {
  }

  /** A validated proxy with the identifier and configuration of `spec`. */
  predicate Matches(p: LocalOpenSearchProxy, spec: (Json, Fields))
    reads p
  {
    p.Valid() && p.identifier == spec.0 && p.cfg == JObj(spec.1)
  }

  /** The probe of a proxy built from `spec` is the probe of `spec`. */
  lemma ProbeOfMatch(p: LocalOpenSearchProxy, spec: (Json, Fields), send: (string, Json) -> Response,
                     item: Result<Vocabulary, PyError>)
    requires Matches(p, spec)
    requires item == Probe(p.identifier, send(p.SearchUrl(), ProbeBody))
    ensures Prober(send)(spec) == Raising(item)
  {
    assert p.SearchUrl() == SpecUrl(spec);
  }

  /** The gathered probes of the built proxies, one after the other. */
  method ProbeProxies(ps: seq<LocalOpenSearchProxy>, ghost specs: seq<(Json, Fields)>,
                      send: (string, Json) -> Response)
    returns (r: Result<seq<Vocabulary>, ProxyError>)
    requires |ps| == |specs|
    requires forall j :: 0 <= j < |ps| ==> ps[j].identifier == specs[j].0 && ps[j].cfg == JObj(specs[j].1)
    requires forall j :: 0 <= j < |ps| ==> ValidCfg(JObj(specs[j].1))
    ensures r == MapResult(specs, Prober(send))
    decreases |ps|
  {
    if ps == [] {
      return Success([]);
    }
    var n := |ps| - 1;
    var prev := ProbeProxies(ps[..n], specs[..n], send);
    if prev.Failure? {
      MapResultFailurePersists(specs, n, Prober(send));
      return Failure(prev.error);
    }
    var item := ProbeOne(ps[n], specs[n], send);
    MapResultStep(specs, n, Prober(send), prev.value);
    assert specs[..n + 1] == specs;
    if item.Failure? {
      return Failure(item.error);
    }
    r := Success(prev.value + [item.value]);
  }

  /** The probe of one built proxy, with a failure raised as the service sees it. */
  method ProbeOne(p: LocalOpenSearchProxy, ghost spec: (Json, Fields), send: (string, Json) -> Response)
    returns (item: Result<Vocabulary, ProxyError>)
    requires p.identifier == spec.0 && p.cfg == JObj(spec.1) && ValidCfg(JObj(spec.1))
    ensures item == Prober(send)(spec)
  {
    var probed := p.ProbeBackend(send);
    ProbeOfMatch(p, spec, send, probed);
    item := Raising(probed);
  }

  /** The loop of `_build_proxies()` over the configured entries. `spec` is `ProxyOf`, taken
      as a ghost parameter so that the loop's proof treats it as a plain function of the entry;
      the trigger keeps the proof from unfolding `ProxyOf` at every entry it mentions. */
  method ProxiesFor(entries: seq<Json>, ghost spec: Json -> Result<(Json, Fields), ProxyError>)
    returns (r: Result<seq<LocalOpenSearchProxy>, ProxyError>, written: seq<Json>)
    requires forall e {:trigger ProxyOf(e)} :: spec(e) == ProxyOf(e)
    ensures var specs := MapResult(entries, spec);
      && (r.Success? <==> specs.Success?)
      && (r.Failure? ==> r.error == specs.error)
      && (r.Success? ==>
            && |r.value| == |specs.value|
            && forall i :: 0 <= i < |r.value| ==> fresh(r.value[i]) && Matches(r.value[i], specs.value[i]))
    ensures |written| == Reach(entries, spec)
    ensures written == Map(entries[..|written|], Rewritten)
  {
    var proxies: seq<LocalOpenSearchProxy> := [];
    ghost var specs: seq<(Json, Fields)> := [];
    written := [];
    for i := 0 to |entries|
      invariant MapResult(entries[..i], spec) == Success(specs)
      invariant |proxies| == |specs|
      invariant forall j :: 0 <= j < |proxies| ==> fresh(proxies[j]) && Matches(proxies[j], specs[j])
      invariant written == Map(entries[..i], Rewritten)
    {
      var proxy := ProxyFor(entries[i], spec);
      MapResultStep(entries, i, spec, specs);
      if proxy.Failure? {
        ReachOfFailure(entries, i, spec);
        return Failure(proxy.error), written;
      }
      WrittenStep(entries, i, spec, written, proxy.value.cfg);
      // The entry keeps the very dict the proxy validated, so it holds the proxy's config.
      written := written + [JObj(Set(entries[i].fields, "config", proxy.value.cfg))];
      proxies := proxies + [proxy.value];
      specs := specs + [spec(entries[i]).value];
    }
    assert entries[..|entries|] == entries;
    ReachOfSuccess(entries, spec);
    r := Success(proxies);
  }

  /** The entry a proxy was built from, holding that proxy's config, is the rewritten entry. */
  lemma WrittenStep(entries: seq<Json>, i: nat, spec: Json -> Result<(Json, Fields), ProxyError>,
                    written: seq<Json>, cfg: Json)
    requires forall e {:trigger ProxyOf(e)} :: spec(e) == ProxyOf(e)
    requires i < |entries| && spec(entries[i]).Success? && cfg == JObj(spec(entries[i]).value.1)
    requires written == Map(entries[..i], Rewritten)
    ensures entries[i].JObj?
    ensures written + [JObj(Set(entries[i].fields, "config", cfg))] == Map(entries[..i + 1], Rewritten)
  {
    assert spec(entries[i]) == ProxyOf(entries[i]);
    ProxyOfRewrites(entries[i]);
    MapSnoc(entries, i, Rewritten);
  }

  /** The body of the loop in `_build_proxies()`: the proxy one entry gives, or the
      exception raised on the way (`spec` is `ProxyOf`, as in `ProxiesFor`). */
  method ProxyFor(entry: Json, ghost spec: Json -> Result<(Json, Fields), ProxyError>)
    returns (r: Result<LocalOpenSearchProxy, ProxyError>)
    requires forall e {:trigger ProxyOf(e)} :: spec(e) == ProxyOf(e)
    ensures var s := spec(entry);
      && (r.Success? <==> s.Success?)
      && (r.Failure? ==> r.error == s.error)
      && (r.Success? ==> fresh(r.value) && Matches(r.value, s.value))
  {
    assert spec(entry) == ProxyOf(entry);
    var identifier := Index(entry, "identifier");
    if identifier.Failure? {
      return Failure(Raised(identifier.error));
    }
    var vtype := Index(entry, "type");
    if vtype.Failure? {
      return Failure(Raised(vtype.error));
    }
    var vcfg := Index(entry, "config");
    if vcfg.Failure? {
      return Failure(Raised(vcfg.error));
    }
    if vtype.value.JArr? || vtype.value.JObj? {
      return Failure(Raised(TypeError));
    }
    if vtype.value != JStr(LocalOs) {
      return Failure(Raised(KeyError));
    }
    r := NewProxy(identifier.value, vcfg.value);
  }

  /** `VocabService`. */
  class Service {
    const settings: AppSettings

    constructor (settings: AppSettings)
      ensures this.settings == settings
    {
      this.settings := settings;
    }

    /** `_build_proxies()`: one fresh, validated proxy per entry, in order; the ports the
        proxies rewrote are rewritten in the settings. */
    method BuildProxies() returns (r: Result<seq<LocalOpenSearchProxy>, ProxyError>)
      modifies settings
      ensures settings.vocabConfig == BuiltBack(old(settings.vocabConfig))
      ensures var specs := ProxySpecs(old(settings.vocabConfig));
        && (r.Success? <==> specs.Success?)
        && (r.Failure? ==> r.error == specs.error)
        && (r.Success? ==>
              && |r.value| == |specs.value|
              && forall i :: 0 <= i < |r.value| ==> fresh(r.value[i]) && Matches(r.value[i], specs.value[i]))
    {
      var cfg := Or(settings.vocabConfig, JObj([]));
      if !cfg.JObj? {
        return Failure(Raised(AttributeError));
      }
      var it := Iterate(Or(GetOr(cfg.fields, "vocabularies", JArr([])), JArr([])));
      if it.Failure? {
        return Failure(Raised(it.error));
      }
      var items := it.value;
      var written;
      r, written := ProxiesFor(items, ProxyOf);
      if written != [] {
        settings.vocabConfig := JObj(Set(cfg.fields, "vocabularies", JArr(written + items[|written|..])));
      }
    }

    /** `list_vocabs(probe=True)`, with the concurrent `asyncio.gather` run as a sequence:
        each proxy's probe, in proxy order. */
    method ListVocabsProbed(send: (string, Json) -> Response) returns (r: Result<seq<Vocabulary>, ProxyError>)
      modifies settings
      ensures r == ProbedVocabs(old(settings.vocabConfig), send)
      ensures settings.vocabConfig == BuiltBack(old(settings.vocabConfig))
    {
      var proxies := BuildProxies();
      if proxies.Failure? {
        return Failure(proxies.error);
      }
      r := ProbeProxies(proxies.value, ProxySpecs(old(settings.vocabConfig)).value, send);
    }

    /** `list_vocabs(probe=False)`: one `ok` item per proxy, with no languages and a zero
        count. */
    method ListVocabs() returns (r: Result<seq<Vocabulary>, ProxyError>)
      modifies settings
      ensures r == ListedVocabs(old(settings.vocabConfig))
      ensures settings.vocabConfig == BuiltBack(old(settings.vocabConfig))
    {
      var proxies := BuildProxies();
      if proxies.Failure? {
        return Failure(proxies.error);
      }
      var ps := proxies.value;
      ghost var specs := ProxySpecs(old(settings.vocabConfig)).value;
      ghost var built := settings.vocabConfig;
      var items: seq<Vocabulary> := [];
      for i := 0 to |ps|
        invariant MapResult(specs[..i], VocabItem) == Success(items)
        invariant settings.vocabConfig == built
      {
        MapResultSnoc(specs, i, VocabItem);
        var item := MakeVocabulary(ps[i].identifier, [], 0, Ok);
        assert VocabItem(specs[i]) == Raising(item);
        if item.Failure? {
          MapResultFailurePersists(specs, i + 1, VocabItem);
          return Failure(Raised(item.error));
        }
        items := items + [item.value];
      }
      assert specs[..|ps|] == specs;
      r := Success(items);
    }
  }
}
