/** Stored channel configuration: sealing credentials, showing a form without them, merging the form back. */
module ChannelConfig {
  import opened Channel
  import Quota

  /** A configuration value; only strings can be credentials, everything else is carried as it is. */
  datatype Value = Str(s: string) | Other(json: string)

  type Fields = map<string, Value>

  datatype ParamSpec = ParamSpec(name: string, isPrivate: bool)

  const SEALED_PREFIX := "v1:"

  predicate IsSealed(s: string) {
    SEALED_PREFIX <= s
  }

  /** The n-th nonce and a plaintext give the text to put behind the marker, unless the random source fails. */
  datatype Cipher = Cipher(seal: (nat, string) -> Option<string>, open: string -> Option<string>)

  /** What authenticated encryption gives: opening undoes sealing, and no text grows when opened. */
  ghost predicate Sound(c: Cipher) {
    && (forall n, p :: c.seal(n, p).Some? ==> c.open(c.seal(n, p).value) == Some(p))
    && (forall s :: c.open(s).Some? ==> |c.open(s).value| <= |s|)
  }

  predicate Private(specs: seq<ParamSpec>, k: string) {
    ParamSpec(k, true) in specs
  }

  // --------------------------------------------------------- what is stored

  predicate Sealable(cfg: Fields, k: string) {
    k in cfg && cfg[k].Str? && cfg[k].s != "" && !IsSealed(cfg[k].s)
  }

  predicate NeedsSeal(specs: seq<ParamSpec>, cfg: Fields, k: string) {
    Private(specs, k) && Sealable(cfg, k)
  }

  ghost predicate Seals(c: Option<Cipher>, sealed: Value, plain: Value) {
    && c.Some? && sealed.Str? && plain.Str?
    && exists n :: c.value.seal(n, plain.s).Some? && sealed.s == SEALED_PREFIX + c.value.seal(n, plain.s).value
  }

  /** stored is cfg with the values of its non-empty, unmarked private strings sealed. */
  ghost predicate SealOf(c: Option<Cipher>, specs: seq<ParamSpec>, cfg: Fields, stored: Fields) {
    && stored.Keys == cfg.Keys
    && forall k :: k in cfg ==> if NeedsSeal(specs, cfg, k) then Seals(c, stored[k], cfg[k]) else stored[k] == cfg[k]
  }

  predicate Marked(v: Value) {
    v.Str? && IsSealed(v.s)
  }

  function OpenedValue(c: Option<Cipher>, v: Value): Option<Value> {
    if !Marked(v) then Some(v)
    else if c.None? then None
    else match c.value.open(v.s[|SEALED_PREFIX|..]) { case Some(p) => Some(Str(p)) case None => None }
  }

  /** plain is what a stored configuration reads back as. */
  predicate OpenOf(c: Option<Cipher>, stored: Fields, plain: Fields) {
    plain.Keys == stored.Keys && forall k :: k in stored ==> OpenedValue(c, stored[k]) == Some(plain[k])
  }

  /** No string, private or not, happens to start with the marker. */
  predicate Unmarked(cfg: Fields) {
    forall k :: k in cfg && cfg[k].Str? ==> !("v1:" <= cfg[k].s)
  }

  /** A sealed value carries the marker and opens to what was sealed. */
  lemma SealedOpens(c: Option<Cipher>, sealed: Value, plain: Value)
    requires Seals(c, sealed, plain)
    ensures Marked(sealed)
    ensures Sound(c.value) ==> OpenedValue(c, sealed) == Some(plain)
  {
    var n :| c.value.seal(n, plain.s).Some? && sealed.s == SEALED_PREFIX + c.value.seal(n, plain.s).value;
    assert sealed.s[|SEALED_PREFIX|..] == c.value.seal(n, plain.s).value;
  }

  /** A marked value never opens to itself. */
  lemma OpeningShrinks(c: Option<Cipher>, v: Value)
    requires c.Some? ==> Sound(c.value)
    requires Marked(v)
    ensures OpenedValue(c, v) != Some(v)
  {
  }

  /** What was saved reads back as it was exactly when no string in it carries the marker already. */
  lemma RoundTripExactly(c: Option<Cipher>, specs: seq<ParamSpec>, cfg: Fields, stored: Fields)
    requires c.Some? ==> Sound(c.value)
    requires SealOf(c, specs, cfg, stored)
    ensures OpenOf(c, stored, cfg) <==> Unmarked(cfg)
  {
    forall k | k in cfg
      ensures OpenedValue(c, stored[k]) == Some(cfg[k]) <==> !Marked(cfg[k])
    {
      if NeedsSeal(specs, cfg, k) {
        SealedOpens(c, stored[k], cfg[k]);
      } else if Marked(cfg[k]) {
        OpeningShrinks(c, cfg[k]);
      }
    }
  }

  /** Two readings of one stored configuration agree. */
  lemma OpenOfUnique(c: Option<Cipher>, stored: Fields, a: Fields, b: Fields)
    requires OpenOf(c, stored, a) && OpenOf(c, stored, b)
    ensures a == b
  {
    forall k | k in a
      ensures k in b && a[k] == b[k]
    {
      assert k in stored;
    }
  }

  /** A non-empty private string is stored under the marker, as typed only if it had it already; others are as given. */
  lemma PrivateIsMarked(c: Option<Cipher>, specs: seq<ParamSpec>, cfg: Fields, stored: Fields, k: string)
    requires SealOf(c, specs, cfg, stored) && k in cfg
    ensures if ParamSpec(k, true) in specs && cfg[k].Str? && cfg[k].s != ""
            then stored[k].Str? && "v1:" <= stored[k].s && (stored[k] == cfg[k] <==> "v1:" <= cfg[k].s)
            else stored[k] == cfg[k]
  {
    if NeedsSeal(specs, cfg, k) {
      SealedOpens(c, stored[k], cfg[k]);
    }
  }

  /** A sealed configuration saved again stays as it is: ciphertext is never sealed twice. */
  lemma SealingTwice(c: Option<Cipher>, specs: seq<ParamSpec>, cfg: Fields, once: Fields, twice: Fields)
    requires SealOf(c, specs, cfg, once) && SealOf(c, specs, once, twice)
    ensures twice == once
  {
    forall k | k in once
      ensures twice[k] == once[k]
    {
      PrivateIsMarked(c, specs, cfg, once, k);
      assert !NeedsSeal(specs, once, k);
    }
  }

  // ------------------------------------------------------- the operator form

  function Masked(specs: seq<ParamSpec>, cfg: Fields): Fields {
    map k | k in cfg && !Private(specs, k) :: cfg[k]
  }

  /** The private parameters an edit does not mention come from what is stored. */
  function Merged(specs: seq<ParamSpec>, edit: Fields, existing: Fields): Fields {
    (map k | k in existing && Private(specs, k) :: existing[k]) + edit
  }

  /** What an operator does to a form: fields taken out, fields put in or changed. */
  datatype Edit = Edit(removed: set<string>, put: Fields)

  /** The form that comes back, having been shown under a schema. */
  function Posted(shown: seq<ParamSpec>, existing: Fields, e: Edit): Fields {
    (Masked(shown, existing) - e.removed) + e.put
  }

  /** What the operator meant: a field can only be taken out of a form that showed it. */
  function Intended(shown: seq<ParamSpec>, existing: Fields, e: Edit): Fields {
    (existing - (set k | k in e.removed && !Private(shown, k))) + e.put
  }

  /** k is treated by the schema the edit is saved under as the form led the operator to expect. */
  predicate Expected(shown: seq<ParamSpec>, saved: seq<ParamSpec>, e: Edit, k: string) {
    k in e.put || (if Private(shown, k) then Private(saved, k) else k in e.removed ==> !Private(saved, k))
  }

  /**
   * A form shown under one schema, edited in any way and merged under another, comes out as meant exactly when
   * every credential it hid is still private or was typed in again, and no field taken out has become private.
   */
  lemma MergeOfMaskExactly(shown: seq<ParamSpec>, saved: seq<ParamSpec>, existing: Fields, e: Edit)
    ensures Merged(saved, Posted(shown, existing, e), existing) == Intended(shown, existing, e)
            <==> forall k :: k in existing ==> Expected(shown, saved, e, k)
  {
    var result, meant := Merged(saved, Posted(shown, existing, e), existing), Intended(shown, existing, e);
    forall k | k in existing
      ensures (k in result <==> k in meant) <==> Expected(shown, saved, e, k)
    {
    }
    if forall k :: k in existing ==> Expected(shown, saved, e, k) {
      assert result.Keys == meant.Keys;
    }
  }

  /** Read, shown as a form, edited, merged, saved and read again: it reads as meant, and nothing else changed. */
  lemma EditSurvivesStorage(c: Option<Cipher>, specs: seq<ParamSpec>, row: Fields, shown: Fields, e: Edit,
                            saved: Fields, read: Fields)
    requires c.Some? ==> Sound(c.value)
    requires OpenOf(c, row, shown)
    requires SealOf(c, specs, Merged(specs, Posted(specs, shown, e), shown), saved)
    requires OpenOf(c, saved, read)
    ensures read == Intended(specs, shown, e) <==> Unmarked(Intended(specs, shown, e))
  {
    var meant := Intended(specs, shown, e);
    MergeOfMaskExactly(specs, specs, shown, e);
    assert Merged(specs, Posted(specs, shown, e), shown) == meant;
    hide Merged, Posted, Intended;
    RoundTripExactly(c, specs, meant, saved);
    if Unmarked(meant) {
      OpenOfUnique(c, saved, read, meant);
    }
  }

  /** The names of the private parameters that hold a credential. */
  predicate HoldsSecret(specs: seq<ParamSpec>, cfg: Fields, k: string) {
    k in cfg && Private(specs, k) && cfg[k].Str? && cfg[k].s != ""
  }

  method MaskSecrets(specs: seq<ParamSpec>, cfg: Fields) returns (masked: Fields, configured: set<string>)
    ensures masked == Masked(specs, cfg)
    ensures forall k :: k in masked <==> k in cfg && ParamSpec(k, true) !in specs
    ensures forall k :: k in masked ==> masked[k] == cfg[k]
    ensures forall k :: k in configured <==> HoldsSecret(specs, cfg, k)
  {
    masked, configured := cfg, {};
    for i := 0 to |specs|
      invariant masked == Masked(specs[..i], cfg)
      invariant forall k :: k in configured <==> HoldsSecret(specs[..i], cfg, k)
    {
      assert specs[..i + 1] == specs[..i] + [specs[i]];
      if specs[i].isPrivate {
        assert specs[i] == ParamSpec(specs[i].name, true);
        if specs[i].name in masked {
          var value := masked[specs[i].name];
          masked := masked - {specs[i].name};
          if value.Str? && value.s != "" {
            configured := configured + {specs[i].name};
          }
        }
      }
    }
    assert specs[..|specs|] == specs;
  }

  // ------------------------------------------------------ one parameter more

  lemma OneMore(specs: seq<ParamSpec>, i: nat)
    requires i < |specs|
    ensures specs[..i + 1] == specs[..i] + [specs[i]]
    ensures forall k :: Private(specs[..i + 1], k) <==> Private(specs[..i], k) || specs[i] == ParamSpec(k, true)
  {
    assert specs[..i + 1] == specs[..i] + [specs[i]];
  }

  /** A value that could still be sealed has not been touched. */
  lemma NotSealedYet(c: Option<Cipher>, specs: seq<ParamSpec>, cfg: Fields, stored: Fields, k: string)
    requires SealOf(c, specs, cfg, stored) && Sealable(stored, k)
    ensures stored[k] == cfg[k]
  {
    if NeedsSeal(specs, cfg, k) {
      SealedOpens(c, stored[k], cfg[k]);
    }
  }

  lemma SpecSkipped(c: Option<Cipher>, specs: seq<ParamSpec>, i: nat, cfg: Fields, stored: Fields)
    requires i < |specs| && SealOf(c, specs[..i], cfg, stored)
    requires specs[i].isPrivate ==> !Sealable(stored, specs[i].name)
    ensures SealOf(c, specs[..i + 1], cfg, stored)
  {
    OneMore(specs, i);
  }

  lemma SpecSealed(c: Option<Cipher>, specs: seq<ParamSpec>, i: nat, cfg: Fields, stored: Fields, v: Value)
    requires i < |specs| && SealOf(c, specs[..i], cfg, stored)
    requires specs[i].isPrivate && Sealable(stored, specs[i].name) && Seals(c, v, stored[specs[i].name])
    ensures SealOf(c, specs[..i + 1], cfg, stored[specs[i].name := v])
  {
    OneMore(specs, i);
    NotSealedYet(c, specs[..i], cfg, stored, specs[i].name);
  }

  // ------------------------------------------------------------- the source

  datatype ChannelConfig =
    ChannelConfig(name: string, typ: string, enabled: Option<bool>, config: Fields, quota: Quota.Limits)

  predicate IsEnabled(cfg: ChannelConfig) {
    cfg.enabled.None? || cfg.enabled.value
  }

  datatype Instance = Instance(typ: string, enabled: bool, config: Fields, quota: Quota.Limits)

  /** row is what saving cfg stores; an instance is on unless it says it is off. */
  ghost predicate Stores(c: Option<Cipher>, specs: seq<ParamSpec>, cfg: ChannelConfig, row: Instance) {
    && row.typ == cfg.typ && row.enabled == (cfg.enabled != Some(false)) && row.quota == cfg.quota
    && SealOf(c, specs, cfg.config, row.config)
  }

  /** cfg is what a row reads back as. */
  predicate Reads(c: Option<Cipher>, name: string, row: Instance, cfg: ChannelConfig) {
    && cfg.name == name && cfg.typ == row.typ && cfg.enabled == Some(row.enabled) && cfg.quota == row.quota
    && OpenOf(c, row.config, cfg.config)
  }

  /** An instance reads back as it was saved, enablement made explicit, exactly when none of its strings is marked. */
  lemma SavedReadsBackExactly(c: Option<Cipher>, specs: seq<ParamSpec>, cfg: ChannelConfig, row: Instance)
    requires c.Some? ==> Sound(c.value)
    requires Stores(c, specs, cfg, row)
    ensures Reads(c, cfg.name, row, cfg.(enabled := Some(cfg.enabled != Some(false)))) <==> Unmarked(cfg.config)
  {
    RoundTripExactly(c, specs, cfg.config, row.config);
  }

  datatype Fetched = Missing | Failed | Found(cfg: ChannelConfig)

  /** merged is cfg with the private parameters it leaves out filled in from what the row reads back as. */
  ghost predicate MergesWith(c: Option<Cipher>, specs: seq<ParamSpec>, cfg: ChannelConfig, row: Instance,
                             merged: ChannelConfig) {
    exists plain :: OpenOf(c, row.config, plain) && merged == cfg.(config := Merged(specs, cfg.config, plain))
  }

  lemma MergeStep(specs: seq<ParamSpec>, i: nat, edit: Fields, existing: Fields, fields: Fields)
    requires i < |specs| && fields == Merged(specs[..i], edit, existing)
    ensures Merged(specs[..i + 1], edit, existing) ==
            if specs[i].isPrivate && specs[i].name !in fields && specs[i].name in existing
            then fields[specs[i].name := existing[specs[i].name]] else fields
  {
    OneMore(specs, i);
    assert specs[i].isPrivate ==> specs[i] == ParamSpec(specs[i].name, true);
  }

  type Registry = map<string, seq<ParamSpec>>

  /** A type this build does not have has no schema, and that is not an error. */
  function SpecsOf(types: Registry, typ: string): seq<ParamSpec> {
    if typ in types then types[typ] else []
  }

  /** The listed instances saved one after another. */
  ghost predicate Imported(c: Option<Cipher>, types: Registry, listed: seq<ChannelConfig>,
                           before: map<string, Instance>, after: map<string, Instance>)
    decreases |listed|
  {
    if listed == [] then after == before
    else
      var rest, cfg := listed[..|listed| - 1], listed[|listed| - 1];
      exists mid, row ::
        Imported(c, types, rest, before, mid) && Stores(c, SpecsOf(types, cfg.typ), cfg, row)
        && after == mid[cfg.name := row]
  }

  /** A row no entry names is as it was. */
  lemma {:induction false} ImportLeavesOthers(c: Option<Cipher>, types: Registry, listed: seq<ChannelConfig>,
                                              before: map<string, Instance>, after: map<string, Instance>, n: string)
    requires Imported(c, types, listed, before, after)
    requires forall cfg :: cfg in listed ==> cfg.name != n
    ensures n in after <==> n in before
    ensures n in after ==> after[n] == before[n]
    decreases |listed|
  {
    if listed != [] {
      var rest, cfg := listed[..|listed| - 1], listed[|listed| - 1];
      var mid, row :| Imported(c, types, rest, before, mid) && Stores(c, SpecsOf(types, cfg.typ), cfg, row)
                      && after == mid[cfg.name := row];
      ImportLeavesOthers(c, types, rest, before, mid, n);
    }
  }

  /** Of several entries with one name the last decides. */
  lemma {:induction false} ImportStoresLast(c: Option<Cipher>, types: Registry, listed: seq<ChannelConfig>,
                                            before: map<string, Instance>, after: map<string, Instance>, i: nat)
    requires Imported(c, types, listed, before, after)
    requires i < |listed| && forall j :: i < j < |listed| ==> listed[j].name != listed[i].name
    ensures listed[i].name in after
    ensures Stores(c, SpecsOf(types, listed[i].typ), listed[i], after[listed[i].name])
    decreases |listed|
  {
    var rest, cfg := listed[..|listed| - 1], listed[|listed| - 1];
    var mid, row :| Imported(c, types, rest, before, mid) && Stores(c, SpecsOf(types, cfg.typ), cfg, row)
                    && after == mid[cfg.name := row];
    if i < |listed| - 1 {
      assert cfg.name != listed[i].name && rest[i] == listed[i];
      ImportStoresLast(c, types, rest, before, mid, i);
    }
  }

  /** Channel instances in the database, with the marker that the file's instances were imported. */
  class ChannelSource {
    const types: Registry
    const cipher: Option<Cipher>
    var rows: map<string, Instance>
    var imported: bool
    var drawn: nat // nonces taken from the random source so far

    constructor (types: Registry, cipher: Option<Cipher>)
      ensures this.types == types && this.cipher == cipher && rows == map[] && !imported
    {
      this.types, this.cipher, rows, imported, drawn := types, cipher, map[], false, 0;
    }

    function SpecsFor(typ: string): seq<ParamSpec> {
      SpecsOf(types, typ)
    }

    ghost predicate SealFails(specs: seq<ParamSpec>, cfg: Fields, k: string) {
      NeedsSeal(specs, cfg, k) && (cipher.None? || exists n :: cipher.value.seal(n, cfg[k].s) == None)
    }

    method Seal(specs: seq<ParamSpec>, cfg: Fields) returns (out: Option<Fields>)
      modifies this`drawn
      ensures out.Some? ==> SealOf(cipher, specs, cfg, out.value)
      ensures cipher.None? ==> (out.None? <==> exists k :: NeedsSeal(specs, cfg, k))
      ensures out.None? ==> exists k :: SealFails(specs, cfg, k)
    {
      var sealed := cfg;
      for i := 0 to |specs|
        invariant SealOf(cipher, specs[..i], cfg, sealed)
        invariant cipher.None? ==> forall k :: !NeedsSeal(specs[..i], cfg, k)
      {
        OneMore(specs, i);
        var name := specs[i].name;
        if !specs[i].isPrivate || !Sealable(sealed, name) {
          SpecSkipped(cipher, specs, i, cfg, sealed);
          continue;
        }
        NotSealedYet(cipher, specs[..i], cfg, sealed, name);
        assert specs[i] == ParamSpec(name, true) && NeedsSeal(specs, cfg, name);
        if cipher.None? {
          assert SealFails(specs, cfg, name);
          return None;
        }
        var body := cipher.value.seal(drawn, sealed[name].s);
        drawn := drawn + 1;
        if body.None? {
          assert SealFails(specs, cfg, name);
          return None;
        }
        var v := Str(SEALED_PREFIX + body.value);
        assert Seals(cipher, v, sealed[name]);
        SpecSealed(cipher, specs, i, cfg, sealed, v);
        sealed := sealed[name := v];
      }
      assert specs[..|specs|] == specs;
      return Some(sealed);
    }

    method Open(cfg: Fields) returns (out: Option<Fields>)
      ensures out.Some? ==> OpenOf(cipher, cfg, out.value)
      ensures out.None? <==> exists k :: k in cfg && OpenedValue(cipher, cfg[k]).None?
    {
      var plain: Fields := map[];
      var todo := cfg.Keys;
      while todo != {}
        invariant todo <= cfg.Keys && plain.Keys == cfg.Keys - todo
        invariant forall k :: k in plain ==> OpenedValue(cipher, cfg[k]) == Some(plain[k])
        decreases |todo|
      {
        var k :| k in todo;
        todo := todo - {k};
        var v := cfg[k];
        if !v.Str? || !IsSealed(v.s) {
          plain := plain[k := v];
          continue;
        }
        if cipher.None? {
          assert OpenedValue(cipher, cfg[k]).None?;
          return None;
        }
        var text := cipher.value.open(v.s[|SEALED_PREFIX|..]);
        if text.None? {
          assert OpenedValue(cipher, cfg[k]).None?;
          return None;
        }
        plain := plain[k := Str(text.value)];
      }
      return Some(plain);
    }

    /** One instance with its sealed values opened; up says whether the database answers. */
    method Get(name: string, up: bool) returns (r: Fetched)
      ensures !up ==> r.Failed?
      ensures r.Missing? <==> up && name !in rows
      ensures r.Failed? && up ==> exists k :: k in rows[name].config && OpenedValue(cipher, rows[name].config[k]).None?
      ensures r.Found? ==> Reads(cipher, name, rows[name], r.cfg)
    {
      if !up {
        return Failed;
      }
      if name !in rows {
        return Missing;
      }
      var row := rows[name];
      var plain := Open(row.config);
      if plain.None? {
        return Failed;
      }
      return Found(ChannelConfig(name, row.typ, Some(row.enabled), plain.value, row.quota));
    }

    /** Refused without a name, a known type, or a key where a credential needs one; otherwise sealed and stored. */
    method Save(cfg: ChannelConfig, up: bool) returns (ok: bool)
      modifies this`rows, this`drawn
      ensures ok ==> up && cfg.name != "" && cfg.typ != "" && cfg.typ in types
      ensures ok ==> cfg.name in rows && rows == old(rows)[cfg.name := rows[cfg.name]]
      ensures ok ==> Stores(cipher, SpecsFor(cfg.typ), cfg, rows[cfg.name])
      ensures !ok ==> rows == old(rows)
      ensures !ok ==> !up || cfg.name == "" || cfg.typ == "" || cfg.typ !in types ||
                      exists k :: SealFails(SpecsFor(cfg.typ), cfg.config, k)
      ensures cipher.None? && (exists k :: NeedsSeal(SpecsFor(cfg.typ), cfg.config, k)) ==> !ok
    {
      if cfg.name == "" || cfg.typ == "" || cfg.typ !in types {
        return false;
      }
      var sealed := Seal(SpecsFor(cfg.typ), cfg.config);
      if sealed.None? {
        return false;
      }
      if up {
        rows := rows[cfg.name := Instance(cfg.typ, IsEnabled(cfg), sealed.value, cfg.quota)];
      }
      return up;
    }

    method Delete(name: string, up: bool) returns (existed: bool, ok: bool)
      modifies this`rows
      ensures ok == up && (existed <==> up && name in old(rows))
      ensures rows == if up then old(rows) - {name} else old(rows)
    {
      if !up {
        return false, false;
      }
      existed, ok := name in rows, true;
      rows := rows - {name};
    }

    /** The edit, with the private parameters it leaves out filled in from what is stored. */
    method MergeEdit(cfg: ChannelConfig, up: bool) returns (merged: Option<ChannelConfig>)
      ensures !up ==> merged == None
      ensures up && cfg.name !in rows ==> merged == Some(cfg)
      ensures cfg.name in rows && merged.Some? ==>
                MergesWith(cipher, SpecsFor(cfg.typ), cfg, rows[cfg.name], merged.value)
      ensures merged.None? && up ==> cfg.name in rows
      ensures merged.None? && up ==>
                exists k :: k in rows[cfg.name].config && OpenedValue(cipher, rows[cfg.name].config[k]).None?
    {
      var got := Get(cfg.name, up);
      if got.Failed? {
        return None;
      }
      if got.Missing? {
        return Some(cfg);
      }
      var existing, specs, fields := got.cfg.config, SpecsFor(cfg.typ), cfg.config;
      for i := 0 to |specs|
        invariant fields == Merged(specs[..i], cfg.config, existing)
      {
        MergeStep(specs, i, cfg.config, existing, fields);
        var name := specs[i].name;
        if specs[i].isPrivate {
          if name !in fields && name in existing {
            fields := fields[name := existing[name]];
          }
        }
      }
      assert specs[..|specs|] == specs;
      merged := Some(cfg.(config := fields));
      assert MergesWith(cipher, specs, cfg, rows[cfg.name], merged.value);
    }

    /** The file seeds the database once: with the marker set nothing it says is read again. */
    method ImportOnce(fromFile: seq<ChannelConfig>, readUp: bool, writeUp: nat -> bool, markUp: bool)
      returns (count: Option<nat>)
      modifies this
      ensures fromFile == [] || (readUp && old(imported)) ==> count == Some(0)
      ensures fromFile == [] || old(imported) || !readUp ==> rows == old(rows) && imported == old(imported)
      ensures fromFile != [] && !readUp ==> count == None
      ensures fromFile != [] && readUp && !old(imported) ==>
                match count
                case Some(n) =>
                  n == |fromFile| && markUp && imported && Imported(cipher, types, fromFile, old(rows), rows)
                case None =>
                  !imported && exists i :: 0 <= i <= |fromFile| && (i == |fromFile| ==> !markUp) &&
                                           Imported(cipher, types, fromFile[..i], old(rows), rows)
    {
      if |fromFile| == 0 {
        return Some(0);
      }
      if !readUp {
        return None;
      }
      if imported {
        return Some(0);
      }
      for i := 0 to |fromFile|
        invariant !imported
        invariant Imported(cipher, types, fromFile[..i], old(rows), rows)
      {
        ghost var before := rows;
        var ok := Save(fromFile[i], writeUp(i));
        if !ok {
          return None;
        }
        assert fromFile[..i + 1][..i] == fromFile[..i];
        assert Imported(cipher, types, fromFile[..i], old(rows), before);
      }
      assert fromFile[..|fromFile|] == fromFile;
      if !markUp {
        return None;
      }
      imported := true;
      return Some(|fromFile|);
    }
  }
}
