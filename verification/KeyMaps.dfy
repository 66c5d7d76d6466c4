/** Rewriting the keys of ordered maps with the codecs of `KeyCase`: the in-place
    pass over JSON options, the Python result re-keying, and the TypeScript
    settings snapshot with its alias tables. */
module KeyMaps {
  import opened OrderedMap
  import opened KeyCase
  import opened JsonBridge

  function Renamed<V>(m: seq<Entry<string, V>>, f: string -> string): seq<Entry<string, V>> {
    seq(|m|, i requires 0 <= i < |m| => Entry(f(m[i].key), m[i].value))
  }

  /** Insert every entry under its new key, in order. */
  function Rekey<V>(m: seq<Entry<string, V>>, f: string -> string): seq<Entry<string, V>> {
    PutAll([], Renamed(m, f))
  }

  // ---------------------------------------------------------- general re-keying

  /** The keys are the images of the old ones, and each key has the value of its
      last pre-image. */
  lemma RekeySpec<V>(m: seq<Entry<string, V>>, f: string -> string)
    ensures Distinct(Rekey(m, f))
    ensures forall i :: 0 <= i < |m| ==> f(m[i].key) in ToMap(Rekey(m, f))
    ensures forall k :: k in ToMap(Rekey(m, f)) ==>
              exists i :: LastAt(Renamed(m, f), k, i) && m[i].value == ToMap(Rekey(m, f))[k]
  {
    FromPairs(Renamed(m, f));
    ToMapLast(Renamed(m, f));
    forall i | 0 <= i < |m| ensures f(m[i].key) in ToMap(Rekey(m, f)) {
      assert Renamed(m, f)[i].key == f(m[i].key);
    }
  }

  lemma {:induction false} FirstKeysLength<V>(m: seq<Entry<string, V>>)
    ensures |FirstKeys(m)| <= |m|
    ensures |FirstKeys(m)| == |m| ==> Distinct(m)
    ensures forall k :: k in FirstKeys(m) <==> exists i :: 0 <= i < |m| && m[i].key == k
  {
    if m != [] {
      var n := |m| - 1;
      FirstKeysLength(m[..n]);
      assert forall i :: 0 <= i < n ==> m[..n][i] == m[i];
      assert m[n].key in FirstKeys(m);
    }
  }

  /** Inserting pairs keeps all of them only if their keys differ. */
  lemma SizeKept<V>(ps: seq<Entry<string, V>>)
    ensures |PutAll([], ps)| <= |ps|
    ensures |PutAll([], ps)| == |ps| <==> Distinct(ps)
    ensures Distinct(ps) ==> PutAll([], ps) == ps
  {
    FromPairs(ps);
    FirstKeysLength(ps);
    assert |Keys(PutAll([], ps))| == |PutAll([], ps)|;
    if Distinct(ps) { FromDistinct(ps); }
  }

  /** Re-keying by `f` and then by `g` gives the map back if and only if `g`
      undoes `f` on every key. */
  lemma RekeyBackIff<V>(m: seq<Entry<string, V>>, f: string -> string, g: string -> string)
    requires Distinct(m)
    ensures Rekey(Rekey(m, f), g) == m <==> forall i :: 0 <= i < |m| ==> g(f(m[i].key)) == m[i].key
  {
    SizeKept(Renamed(m, f));
    SizeKept(Renamed(Rekey(m, f), g));
    if Rekey(Rekey(m, f), g) == m {
      assert Rekey(m, f) == Renamed(m, f);
      assert Renamed(Renamed(m, f), g) == m;
      forall i | 0 <= i < |m| ensures g(f(m[i].key)) == m[i].key {
        assert Renamed(Renamed(m, f), g)[i] == m[i];
      }
    }
    if forall i :: 0 <= i < |m| ==> g(f(m[i].key)) == m[i].key {
      assert Distinct(Renamed(m, f));
      assert Renamed(Renamed(m, f), g) == m;
    }
  }

  // ------------------------------------------------------ Rust: option objects

  /** Entry `i` is the last one renamed to `k`. */
  ghost predicate LastRenamed<V>(m: seq<Entry<string, V>>, f: string -> string, k: string, i: int) {
    0 <= i < |m| && f(m[i].key) == k && forall j :: i < j < |m| ==> f(m[j].key) != k
  }

  /** `out` has the images of the keys of `m`, each with the value of its last
      pre-image. */
  ghost predicate RekeyedBy<V>(m: seq<Entry<string, V>>, f: string -> string, out: seq<Entry<string, V>>) {
    && Distinct(out)
    && (forall k :: k in ToMap(out) <==> exists i :: LastRenamed(m, f, k, i))
    && (forall k :: k in ToMap(out) ==> exists i :: LastRenamed(m, f, k, i) && m[i].value == ToMap(out)[k])
  }

  /** A key is present if and only if some entry is renamed to it, and has the value
      of the last such entry. */
  lemma RekeyAt<V>(m: seq<Entry<string, V>>, f: string -> string, k: string)
    ensures k in ToMap(Rekey(m, f)) <==> exists i :: LastAt(Renamed(m, f), k, i)
    ensures k in ToMap(Rekey(m, f)) ==>
              exists i :: LastAt(Renamed(m, f), k, i) && m[i].value == ToMap(Rekey(m, f))[k]
  {
    RekeySpec(m, f);
    if i :| LastAt(Renamed(m, f), k, i) { assert f(m[i].key) == k; }
  }

  lemma LastRenamedIff<V>(m: seq<Entry<string, V>>, f: string -> string, k: string, i: int)
    ensures LastRenamed(m, f, k, i) <==> LastAt(Renamed(m, f), k, i)
  {
    assert forall j :: 0 <= j < |m| ==> Renamed(m, f)[j].key == f(m[j].key);
  }

  lemma RekeyMeans<V>(m: seq<Entry<string, V>>, f: string -> string)
    ensures RekeyedBy(m, f, Rekey(m, f))
  {
    RekeySpec(m, f);
    forall k { RekeyAt(m, f, k); }
    forall k, i { LastRenamedIff(m, f, k, i); }
  }

  function CamelKeys(v: Json): Json {
    if v.Obj? then Obj(Rekey(v.entries, RustCamel)) else v
  }

  class JsonCell {
    var value: Json

    constructor (v: Json)
      ensures value == v
    {
      value := v;
    }

    /** Collects the renamed pairs, clears the map, and refills it. */
    method SnakeToCamelKeys()
      modifies this
      ensures value == CamelKeys(old(value))
      ensures if old(value).Obj? then value.Obj? && RekeyedBy(old(value).entries, RustCamel, value.entries)
              else value == old(value)
    {
      if value.Obj? {
        RekeyMeans(value.entries, RustCamel);
        var pairs := [];
        for i := 0 to |value.entries|
          invariant value == old(value) && pairs == Renamed(value.entries, RustCamel)[..i]
        {
          var k := SnakeToCamel(value.entries[i].key);
          pairs := pairs + [Entry(k, value.entries[i].value)];
        }
        assert pairs == Renamed(value.entries, RustCamel);
        var filled := [];
        for i := 0 to |pairs|
          invariant filled == PutAll([], pairs[..i])
        {
          PutAllSnoc([], pairs[..i], pairs[i]);
          assert pairs[..i + 1] == pairs[..i] + [pairs[i]];
          filled := Put(filled, pairs[i].key, pairs[i].value);
        }
        assert pairs[..|pairs|] == pairs;
        value := Obj(filled);
      }
    }
  }

  /** A second pass changes nothing. */
  lemma CamelKeysIdempotent(v: Json)
    ensures CamelKeys(CamelKeys(v)) == CamelKeys(v)
  {
    if v.Obj? {
      var once := Rekey(v.entries, RustCamel);
      RekeySpec(v.entries, RustCamel);
      forall i | 0 <= i < |once| ensures RustCamel(once[i].key) == once[i].key {
        AtKey(once, i);
        var j :| LastAt(Renamed(v.entries, RustCamel), once[i].key, j);
        RustCamelIdempotent(v.entries[j].key);
      }
      assert Renamed(once, RustCamel) == once;
      FromDistinct(once);
    }
  }

  // ----------------------------------------------------- Python: result re-keying

  /** The dict comprehension of `_rekey`. */
  function PyRekey<V>(m: seq<Entry<string, V>>): seq<Entry<string, V>> {
    Rekey(m, PySnake)
  }

  predicate WordKeys<V>(m: seq<Entry<string, V>>, words: seq<seq<string>>) {
    |words| == |m| && forall i :: 0 <= i < |m| ==> Words(words[i]) && m[i].key == SnakeKey(words[i])
  }

  /** A dict whose keys are words joined by underscores survives the trip through
      camel-case options and back if and only if every key guards its lone
      letters. */
  lemma OptionsReturnIff(es: seq<Entry<string, Json>>, words: seq<seq<string>>)
    requires Distinct(es) && WordKeys(es, words)
    ensures PyRekey(CamelKeys(Obj(es)).entries) == es <==> forall i :: 0 <= i < |words| ==> LoneLettersGuarded(words[i])
  {
    RekeyBackIff(es, RustCamel, PySnake);
    forall i | 0 <= i < |words|
      ensures PySnake(RustCamel(es[i].key)) == es[i].key <==> LoneLettersGuarded(words[i])
    {
      PythonUndoesRustIff(words[i]);
    }
  }

  // ------------------------------------------------------- TypeScript: settings

  function AliasOf(aliases: map<string, string>, k: string): string {
    if k in aliases then aliases[k] else k
  }

  function CamelName(aliases: map<string, string>): string -> string {
    k => TsCamel(AliasOf(aliases, k))
  }

  const MODEL := "embeddingModel"
  const MODEL_NAME := "embeddingModelName"
  const MODEL_FIELD := "embedding_model"
  const MODEL_NAME_FIELD := "embedding_model_name"

  /** Expose the model under the setter's name as well. */
  function WithModelAlias<V>(out: seq<Entry<string, V>>): seq<Entry<string, V>> {
    var i := IndexOf(out, MODEL_NAME);
    if i < |out| && IndexOf(out, MODEL) == |out| then Put(out, MODEL, out[i].value) else out
  }

  function CamelConfig<V>(obj: seq<Entry<string, V>>, aliases: map<string, string>): seq<Entry<string, V>> {
    WithModelAlias(Rekey(obj, CamelName(aliases)))
  }

  lemma RekeyStep<V>(m: seq<Entry<string, V>>, f: string -> string, i: nat)
    requires i < |m|
    ensures PutAll([], Renamed(m, f)[..i + 1]) == Put(PutAll([], Renamed(m, f)[..i]), f(m[i].key), m[i].value)
  {
    var renamed := Renamed(m, f);
    assert renamed[..i + 1] == renamed[..i] + [renamed[i]];
    PutAllSnoc([], renamed[..i], renamed[i]);
  }

  method CamelNames<V>(obj: seq<Entry<string, V>>, aliases: map<string, string>) returns (out: seq<Entry<string, V>>)
    ensures out == Rekey(obj, CamelName(aliases))
  {
    out := [];
    ghost var renamed := Renamed(obj, CamelName(aliases));
    for i := 0 to |obj|
      invariant out == PutAll([], renamed[..i])
    {
      RekeyStep(obj, CamelName(aliases), i);
      var name := if obj[i].key in aliases then aliases[obj[i].key] else obj[i].key;
      out := Put(out, TsCamel(name), obj[i].value);
    }
    assert renamed[..|obj|] == renamed;
  }

  /** Setting `i` is the last one whose name, or whose alias, reads `k` in camel
      case. */
  ghost predicate LastNamed<V>(obj: seq<Entry<string, V>>, aliases: map<string, string>, k: string, i: int) {
    && 0 <= i < |obj| && TsCamel(AliasOf(aliases, obj[i].key)) == k
    && forall j :: i < j < |obj| ==> TsCamel(AliasOf(aliases, obj[j].key)) != k
  }

  ghost predicate Named<V>(obj: seq<Entry<string, V>>, aliases: map<string, string>, k: string) {
    exists i :: LastNamed(obj, aliases, k, i)
  }

  /** The value of the last setting named `k`. */
  ghost predicate ValueOfLast<V>(obj: seq<Entry<string, V>>, aliases: map<string, string>, k: string, v: V) {
    exists i :: LastNamed(obj, aliases, k, i) && obj[i].value == v
  }

  /** A configuration as the API documents it: every setting under its camel-case
      name, and the embedding model under `embeddingModel` too, unless a setting has
      that name itself. */
  ghost predicate Snapshot<V>(obj: seq<Entry<string, V>>, aliases: map<string, string>, out: seq<Entry<string, V>>) {
    var m := ToMap(out);
    && Distinct(out)
    && (forall k :: k != "embeddingModel" ==> (k in m <==> Named(obj, aliases, k)))
    && (forall k :: k in m && k != "embeddingModel" ==> ValueOfLast(obj, aliases, k, m[k]))
    && ("embeddingModel" in m <==>
          Named(obj, aliases, "embeddingModel") || Named(obj, aliases, "embeddingModelName"))
    && ("embeddingModel" in m ==>
          if Named(obj, aliases, "embeddingModel")
          then ValueOfLast(obj, aliases, "embeddingModel", m["embeddingModel"])
          else "embeddingModelName" in m && m["embeddingModel"] == m["embeddingModelName"])
  }

  lemma LastNamedIff<V>(obj: seq<Entry<string, V>>, aliases: map<string, string>, k: string, i: int)
    ensures LastNamed(obj, aliases, k, i) <==> LastAt(Renamed(obj, CamelName(aliases)), k, i)
  {
    var pairs := Renamed(obj, CamelName(aliases));
    assert forall j :: 0 <= j < |obj| ==> pairs[j].key == TsCamel(AliasOf(aliases, obj[j].key));
  }

  lemma CamelNamesMeans<V>(obj: seq<Entry<string, V>>, aliases: map<string, string>, k: string)
    ensures var m := ToMap(Rekey(obj, CamelName(aliases)));
            (k in m <==> Named(obj, aliases, k)) && (k in m ==> ValueOfLast(obj, aliases, k, m[k]))
  {
    RekeyAt(obj, CamelName(aliases), k);
    forall i { LastNamedIff(obj, aliases, k, i); }
    if k in ToMap(Rekey(obj, CamelName(aliases))) {
      var m := ToMap(Rekey(obj, CamelName(aliases)));
      var i :| LastAt(Renamed(obj, CamelName(aliases)), k, i) && obj[i].value == m[k];
      LastNamedIff(obj, aliases, k, i);
    }
  }

  /** The added entry, in terms of the mapping. */
  lemma AliasAdds<V>(out: seq<Entry<string, V>>)
    requires Distinct(out)
    ensures var m := ToMap(out);
            && Distinct(WithModelAlias(out))
            && ToMap(WithModelAlias(out)) ==
                 if MODEL_NAME in m && MODEL !in m then m[MODEL := m[MODEL_NAME]] else m
  {
    var i, j := IndexOf(out, MODEL_NAME), IndexOf(out, MODEL);
    if i < |out| { AtKey(out, i); } else { Absent(out, MODEL_NAME); }
    if j < |out| { AtKey(out, j); } else { Absent(out, MODEL); }
    if i < |out| && j == |out| {
      PutKeys(out, MODEL, out[i].value);
      PutMap(out, MODEL, out[i].value);
    }
  }

  /** Every key is named by some setting and has the value of the last one. */
  ghost predicate NamesOnly<V>(obj: seq<Entry<string, V>>, aliases: map<string, string>, m: map<string, V>) {
    forall k :: (k in m <==> Named(obj, aliases, k)) && (k in m ==> ValueOfLast(obj, aliases, k, m[k]))
  }

  lemma SnapshotFrom<V>(obj: seq<Entry<string, V>>, aliases: map<string, string>, m: map<string, V>,
                        out: seq<Entry<string, V>>)
    requires NamesOnly(obj, aliases, m) && Distinct(out)
    requires ToMap(out) == if MODEL_NAME in m && MODEL !in m then m[MODEL := m[MODEL_NAME]] else m
    ensures Snapshot(obj, aliases, out)
  {
    assert |MODEL| != |MODEL_NAME|;
  }

  lemma CamelConfigMeans<V>(obj: seq<Entry<string, V>>, aliases: map<string, string>)
    ensures Snapshot(obj, aliases, CamelConfig(obj, aliases))
  {
    var names := Rekey(obj, CamelName(aliases));
    RekeySpec(obj, CamelName(aliases));
    AliasAdds(names);
    forall k { CamelNamesMeans(obj, aliases, k); }
    SnapshotFrom(obj, aliases, ToMap(names), CamelConfig(obj, aliases));
  }

  method ConfigToCamel<V>(obj: seq<Entry<string, V>>, aliases: map<string, string>) returns (out: seq<Entry<string, V>>)
    ensures out == CamelConfig(obj, aliases)
    ensures Snapshot(obj, aliases, out)
  {
    out := CamelNames(obj, aliases);
    var at := IndexOf(out, MODEL_NAME);
    if at < |out| && IndexOf(out, MODEL) == |out| {
      out := Put(out, MODEL, out[at].value);
    }
    CamelConfigMeans(obj, aliases);
  }

  function SettingsKey(k: string): string {
    if k == MODEL then MODEL_NAME_FIELD else TsSnake(k)
  }

  /** Setting `i` is the last one read as field `k`: `embeddingModel` is the field
      `embedding_model_name`, any other name is its snake case. */
  ghost predicate LastRead<V>(settings: seq<Entry<string, V>>, k: string, i: int) {
    && 0 <= i < |settings| && ReadAs(settings[i].key, k)
    && forall j :: i < j < |settings| ==> !ReadAs(settings[j].key, k)
  }

  predicate ReadAs(name: string, k: string) {
    if name == "embeddingModel" then k == "embedding_model_name" else TsSnake(name) == k
  }

  /** Every field has the value of the last setting read as it, and there are no
      others. */
  ghost predicate Fields<V>(settings: seq<Entry<string, V>>, out: seq<Entry<string, V>>) {
    && Distinct(out)
    && (forall k :: k in ToMap(out) <==> exists i :: LastRead(settings, k, i))
    && (forall k :: k in ToMap(out) ==> exists i :: LastRead(settings, k, i) && settings[i].value == ToMap(out)[k])
  }

  lemma LastReadIff<V>(settings: seq<Entry<string, V>>, k: string, i: int)
    ensures LastRead(settings, k, i) <==> LastAt(Renamed(settings, SettingsKey), k, i)
  {
    var pairs := Renamed(settings, SettingsKey);
    forall j | 0 <= j < |settings| ensures pairs[j].key == k <==> ReadAs(settings[j].key, k) {
      assert pairs[j].key == SettingsKey(settings[j].key);
      ReadAsIff(settings[j].key, k);
    }
  }

  lemma ReadAsIff(name: string, k: string)
    ensures SettingsKey(name) == k <==> ReadAs(name, k)
  {
  }

  lemma NormalizedMeans<V>(settings: seq<Entry<string, V>>)
    ensures Fields(settings, Rekey(settings, SettingsKey))
  {
    RekeySpec(settings, SettingsKey);
    forall k { RekeyAt(settings, SettingsKey, k); }
    forall k, i { LastReadIff(settings, k, i); }
  }

  method NormalizeSettings<V>(settings: seq<Entry<string, V>>) returns (out: seq<Entry<string, V>>)
    ensures out == Rekey(settings, SettingsKey)
    ensures Fields(settings, out)
  {
    NormalizedMeans(settings);
    out := [];
    ghost var renamed := Renamed(settings, SettingsKey);
    for i := 0 to |settings|
      invariant out == PutAll([], renamed[..i])
    {
      RekeyStep(settings, SettingsKey, i);
      var key := if settings[i].key == MODEL then MODEL_NAME_FIELD else TsSnake(settings[i].key);
      out := Put(out, key, settings[i].value);
    }
    assert renamed[..|settings|] == renamed;
  }

  // Evaluating the codecs on the four literal keys.

  lemma {:induction false} TsCamelPlain(a: string, b: string)
    requires forall i :: 0 <= i < |a| ==> !IsSeparator(a[i])
    ensures TsCamel(a + b) == a + TsCamel(b)
  {
    if a == "" {
      assert a + b == b;
    } else {
      assert (a + b)[1..] == a[1..] + b;
      TsCamelPlain(a[1..], b);
      assert a == [a[0]] + a[1..];
    }
  }

  lemma {:induction false} TsSnakePlain(a: string)
    requires forall i :: 0 <= i < |a| ==> !IsUpper(a[i])
    ensures TsSnake(a) == a
  {
    if a != "" {
      TsSnakePlain(a[1..]);
      assert a == [a[0]] + a[1..];
    }
  }

  lemma TsSnakeCap(c: char, w: string)
    requires IsUpper(c) && forall i :: 0 <= i < |w| ==> !IsUpper(w[i])
    ensures TsSnake([c] + w) == ['_', Lower(c)] + w
  {
    assert ([c] + w)[1..] == w;
    TsSnakePlain(w);
  }

  /** A name with one capital: plain, capital, plain. */
  lemma TsSnakeWords(k: string, a: string, c: char, w: string)
    requires k == a + ([c] + w) && IsUpper(c)
    requires forall i :: 0 <= i < |w| ==> !IsUpper(w[i])
    ensures TsSnake(k) == TsSnake(a) + (['_', Lower(c)] + w)
  {
    TsSnakeConcat(a, [c] + w);
    TsSnakeCap(c, w);
  }

  lemma TsSnakeOneCapital(k: string, plain: string, c: char, w: string)
    requires k == plain + ([c] + w) && IsUpper(c)
    requires forall i :: 0 <= i < |plain| ==> !IsUpper(plain[i])
    requires forall i :: 0 <= i < |w| ==> !IsUpper(w[i])
    ensures TsSnake(k) == plain + (['_', Lower(c)] + w)
  {
    TsSnakeWords(k, plain, c, w);
    TsSnakePlain(plain);
  }

  lemma SplitModel(k: string, field: string) returns (plain: string)
    requires k == MODEL && field == MODEL_FIELD
    ensures k == plain + (['M'] + "odel") && field == plain + (['_', 'm'] + "odel")
    ensures forall i :: 0 <= i < |plain| ==> !IsUpper(plain[i])
  {
    plain := "embedding";
  }

  lemma SplitModelName(k: string, field: string)
    requires k == MODEL_NAME && field == MODEL_NAME_FIELD
    ensures k == MODEL + (['N'] + "ame") && field == MODEL_FIELD + (['_', 'n'] + "ame")
  {
  }

  lemma SnakeOfModel(k: string)
    requires k == MODEL
    ensures TsSnake(k) == MODEL_FIELD
  {
    var field := MODEL_FIELD;
    var plain := SplitModel(k, field);
    TsSnakeOneCapital(k, plain, 'M', "odel");
  }

  lemma SnakeOfModelName(k: string)
    requires k == MODEL_NAME
    ensures TsSnake(k) == MODEL_NAME_FIELD
  {
    var model, field := MODEL, MODEL_NAME_FIELD;
    SplitModelName(k, field);
    TsSnakeWords(k, model, 'N', "ame");
    SnakeOfModel(model);
  }

  lemma SettingsKeysOfModel()
    ensures SettingsKey(MODEL_NAME) == MODEL_NAME_FIELD && SettingsKey(MODEL) == MODEL_NAME_FIELD
  {
    assert |MODEL_NAME| != |MODEL|;
    SnakeOfModelName(MODEL_NAME);
  }

  lemma ModelFieldParts(k: string)
    requires Canon(k) == MODEL_FIELD
    ensures |k| == 15 && IsSeparator(k[9]) && k[10] == 'm' && k[11..] == "odel"
    ensures k[..9] + (['M'] + k[11..]) == MODEL
    ensures forall i :: 0 <= i < |k| && i != 9 ==> !IsSeparator(k[i])
  {
    assert |k| == 15 && Canon(k)[9] == '_';
    assert forall i :: 0 <= i < 15 ==> Canon(k)[i] == MODEL_FIELD[i];
    assert forall i :: 0 <= i < 15 && i != 9 ==> k[i] == MODEL_FIELD[i];
  }

  /** Camel-casing a name with one separator, before a letter. */
  lemma TsCamelOneSeparator(k: string, p: nat)
    requires p + 1 < |k| && IsSeparator(k[p]) && IsLower(k[p + 1])
    requires forall i :: 0 <= i < |k| && i != p ==> !IsSeparator(k[i])
    ensures TsCamel(k) == k[..p] + ([Upper(k[p + 1])] + k[p + 2..])
  {
    var tail := k[p + 2..];
    assert k == k[..p] + k[p..];
    TsCamelPlain(k[..p], k[p..]);
    assert k[p..][2..] == tail;
    TsCamelPlain(tail, "");
    assert tail + "" == tail;
  }

  lemma CamelOfModelField(k: string)
    requires Canon(k) == MODEL_FIELD
    ensures TsCamel(k) == MODEL
  {
    ModelFieldParts(k);
    TsCamelOneSeparator(k, 9);
  }

  lemma {:induction false} TsCamelLast(k: string)
    requires k != ""
    ensures TsCamel(k) != ""
    ensures var c, d := k[|k| - 1], TsCamel(k)[|TsCamel(k)| - 1]; d == c || d == Upper(c)
  {
    if SeparatorMatch(k) {
      if |k| > 2 { TsCamelLast(k[2..]); }
    } else {
      if |k| > 1 { TsCamelLast(k[1..]); }
    }
  }

  lemma ModelNameIsNotModel(k: string)
    requires Canon(k) == MODEL_NAME_FIELD
    ensures TsCamel(k) != MODEL
  {
    assert |k| == 20 && Canon(k)[19] == 'e' && k[19] == 'e';
    TsCamelLast(k);
    assert MODEL[13] == 'l';
  }

  lemma PutPresent<V>(m: seq<Entry<string, V>>, k: string, v: V, i: nat)
    requires Distinct(m) && i < |m| && m[i].key == k
    ensures |Put(m, k, v)| == |m|
    ensures m[i].value == v ==> Put(m, k, v) == m
  {
    assert IndexOf(m, k) == i;
  }

  /** Inserting a pair that is already there changes no size, and nothing at all
      if the keys differ. */
  lemma InsertAgain<V>(ps: seq<Entry<string, V>>, i: nat)
    requires i < |ps|
    ensures |PutAll([], ps + [ps[i]])| == |PutAll([], ps)|
    ensures Distinct(ps) ==> PutAll([], ps + [ps[i]]) == ps
  {
    var merged, e := PutAll([], ps), ps[i];
    PutAllSnoc([], ps, e);
    FromPairs(ps);
    ToMapLast(ps);
    var j := IndexOf(merged, e.key);
    if j == |merged| { Absent(merged, e.key); }
    PutPresent(merged, e.key, e.value, j);
    SizeKept(ps);
    if Distinct(ps) { PutPresent(merged, e.key, e.value, i); }
  }

  lemma RenamedSnoc<V>(m: seq<Entry<string, V>>, e: Entry<string, V>, f: string -> string)
    ensures Renamed(m + [e], f) == Renamed(m, f) + [Entry(f(e.key), e.value)]
  {
  }

  /** Read back, the model's second name falls on its first. */
  lemma AliasMergesBack<V>(out: seq<Entry<string, V>>)
    ensures |Rekey(WithModelAlias(out), SettingsKey)| == |Rekey(out, SettingsKey)|
    ensures Distinct(Renamed(out, SettingsKey)) ==> Rekey(WithModelAlias(out), SettingsKey) == Renamed(out, SettingsKey)
  {
    SizeKept(Renamed(out, SettingsKey));
    var i := IndexOf(out, MODEL_NAME);
    if i < |out| && IndexOf(out, MODEL) == |out| {
      SettingsKeysOfModel();
      RenamedSnoc(out, Entry(MODEL, out[i].value), SettingsKey);
      InsertAgain(Renamed(out, SettingsKey), i);
    }
  }

  /** `back` is a re-keying by `f` and then by `g`, possibly with entries added
      that merge away: it is the re-keying by `h` if and only if `h` keeps the
      keys apart and is `g` after `f` on every key. */
  lemma RekeyTwiceIff<V>(m: seq<Entry<string, V>>, f: string -> string, g: string -> string, h: string -> string,
                         back: seq<Entry<string, V>>)
    requires |back| == |Rekey(Rekey(m, f), g)|
    requires Distinct(Renamed(Rekey(m, f), g)) ==> back == Renamed(Rekey(m, f), g)
    ensures back == Renamed(m, h) <==>
              Distinct(Renamed(m, h)) && forall i :: 0 <= i < |m| ==> g(f(m[i].key)) == h(m[i].key)
  {
    var out := Rekey(m, f);
    SizeKept(Renamed(m, f));
    SizeKept(Renamed(out, g));
    if back == Renamed(m, h) {
      assert out == Renamed(m, f);
      forall i | 0 <= i < |m| ensures g(f(m[i].key)) == h(m[i].key) {
        assert back[i] == Renamed(out, g)[i];
      }
    }
    if Distinct(Renamed(m, h)) && forall i :: 0 <= i < |m| ==> g(f(m[i].key)) == h(m[i].key) {
      forall i, j | 0 <= i < j < |m| ensures f(m[i].key) != f(m[j].key) {
        assert Renamed(m, h)[i].key != Renamed(m, h)[j].key;
      }
      assert Renamed(Renamed(m, f), g) == Renamed(m, h);
    }
  }

  /** The keys the settings should come back under: the alias, if there is one,
      with dots as underscores. */
  function CanonName(aliases: map<string, string>): string -> string {
    k => Canon(AliasOf(aliases, k))
  }

  predicate SettingsSurvive(aliases: map<string, string>, k: string) {
    var name := AliasOf(aliases, k);
    KeySurvives(name) && Canon(name) != MODEL_FIELD
  }

  lemma SettingsKeyIff(aliases: map<string, string>, k: string)
    ensures SettingsKey(TsCamel(AliasOf(aliases, k))) == Canon(AliasOf(aliases, k)) <==> SettingsSurvive(aliases, k)
  {
    var name := AliasOf(aliases, k);
    SurvivesIff(name);
    if Canon(name) == MODEL_FIELD {
      CamelOfModelField(name);
      assert |MODEL_FIELD| != |MODEL_NAME_FIELD|;
    } else if TsCamel(name) == MODEL {
      SnakeOfModel(TsCamel(name));
      if Canon(name) == MODEL_NAME_FIELD { ModelNameIsNotModel(name); }
    }
  }

  /** Reading the configuration and feeding it back to the constructor gives every
      entry under its canonical name, in order and losing none, if and only if
      those names differ, each name survives the codecs, and none is
      `embedding_model`. The added `embeddingModel` entry never matters. */
  lemma SettingsRoundTripIff<V>(obj: seq<Entry<string, V>>, aliases: map<string, string>)
    ensures Rekey(CamelConfig(obj, aliases), SettingsKey) == Renamed(obj, CanonName(aliases)) <==>
              (&& Distinct(Renamed(obj, CanonName(aliases)))
               && forall i :: 0 <= i < |obj| ==> SettingsSurvive(aliases, obj[i].key))
  {
    AliasMergesBack(Rekey(obj, CamelName(aliases)));
    RekeyTwiceIff(obj, CamelName(aliases), SettingsKey, CanonName(aliases),
                  Rekey(CamelConfig(obj, aliases), SettingsKey));
    forall i | 0 <= i < |obj|
      ensures SettingsKey(CamelName(aliases)(obj[i].key)) == CanonName(aliases)(obj[i].key)
              <==> SettingsSurvive(aliases, obj[i].key)
    {
      SettingsKeyIff(aliases, obj[i].key);
    }
  }

  lemma RekeyOne<V>(k: string, v: V, f: string -> string)
    ensures Rekey([Entry(k, v)], f) == [Entry(f(k), v)]
  {
    assert Renamed([Entry(k, v)], f) == [Entry(f(k), v)];
    FromDistinct([Entry(f(k), v)]);
  }

  lemma ModelAlone<V>(out: seq<Entry<string, V>>)
    requires |out| == 1 && out[0].key == MODEL
    ensures WithModelAlias(out) == out
  {
    assert |MODEL| != |MODEL_NAME|;
    assert out[0].key != MODEL_NAME;
  }

  /** `embedding_model` comes back as the other setting. */
  lemma EmbeddingModelMoves<V>(k: string, v: V)
    requires k == MODEL_FIELD
    ensures Rekey(CamelConfig([Entry(k, v)], map[]), SettingsKey) == [Entry(MODEL_NAME_FIELD, v)]
  {
    assert forall i :: 0 <= i < |k| ==> k[i] != '.';
    assert Canon(k) == k;
    CamelOfModelField(k);
    RekeyOne(k, v, CamelName(map[]));
    ModelAlone([Entry(TsCamel(k), v)]);
    RekeyOne(TsCamel(k), v, SettingsKey);
    SettingsKeysOfModel();
  }
}
