/** Loading the migration scripts and migrating one checkpoint (util/cpt_upgrader.py). */
module UpgradeRegistry {
  import opened Finite
  import opened Results
  import opened UpgradeGraph
  import opened UpgradeScripts

  class Upgrader {
    const tag: string
    const kind: Kind
    const fwdDepends: seq<string>
    const legacyVersion: Option<int>
    var depends: seq<string>

    constructor (s: Script)
      ensures tag == s.tag && fwdDepends == s.fwdDepends && depends == s.depends
      ensures legacyVersion == s.legacyVersion
      ensures kind == KindOf(s)
    {
      tag, fwdDepends, legacyVersion, depends := s.tag, s.fwdDepends, s.legacyVersion, s.depends;
      kind := KindOf(s);
    }

    method Ready(tags: set<string>) returns (ready: bool)
      ensures ready <==> forall d <- depends :: d in tags
    {
      for k := 0 to |depends|
        invariant forall d <- depends[..k] :: d in tags
      {
        if depends[k] !in tags {
          return false;
        }
      }
      ready := true;
    }

    /** The effect of one migration on the tags; removing an absent tag is an error. */
    method Update(tags: set<string>) returns (r: Result<set<string>, string>)
      ensures kind.Upgrade? ==> r == Ok(tags + {tag})
      ensures kind.Downgrade? ==> r == if tag in tags then Ok(tags - {tag}) else Err(tag)
    {
      if kind.Upgrade? {
        r := Ok(tags + {tag});
      } else if tag in tags {
        r := Ok(tags - {tag});
      } else {
        r := Err(tag);
      }
    }
  }

  datatype LoadError =
    | NoMethod(tag: string)
    | NoLegacy(version: int)
    | BadForward(tag: string, forward: string)
    | BadDependency(tag: string, dependency: string)

  datatype Step =
    | Next(tags: set<string>, pending: set<string>, applied: seq<string>)
    | Blocked
    | Missing(tag: string)

  datatype Migration =
    | Migrated(tags: set<string>, log: seq<string>)
    | Unresolvable(pending: set<string>)
    | MissingTag(tag: string)

  datatype FileChange = Unchanged | Written(tags: set<string>, log: seq<string>)

  datatype FileError =
    | NoVersionInformation
    | UnknownVersion
    | Aborted(pending: set<string>)
    | TagMissing(tag: string)

  // ---- Upgraders made from scripts ----

  ghost predicate MadeFrom(u: Upgrader, s: Script) {
    u.tag == s.tag && u.kind == KindOf(s) && u.fwdDepends == s.fwdDepends && u.legacyVersion == s.legacyVersion
  }

  ghost predicate AllMadeFrom(made: seq<Upgrader>, scripts: seq<Script>) {
    && |made| <= |scripts|
    && forall k {:trigger MadeFrom(made[k], scripts[k])} :: 0 <= k < |made| ==> MadeFrom(made[k], scripts[k])
  }

  ghost predicate AsDeclared(made: seq<Upgrader>, scripts: seq<Script>)
    reads made
  {
    |made| <= |scripts| && forall k :: 0 <= k < |made| ==> made[k].depends == scripts[k].depends
  }

  /** No upgrader twice. */
  ghost predicate DistinctObjects(made: seq<Upgrader>) {
    forall i, j {:trigger Apart(made, i, j)} :: 0 <= i < j < |made| ==> Apart(made, i, j)
  }

  ghost predicate Apart(made: seq<Upgrader>, i: nat, j: nat)
    requires i < j < |made|
  {
    made[i] != made[j]
  }

  lemma DistinctSnoc(made: seq<Upgrader>, u: Upgrader)
    requires DistinctObjects(made) && u !in made
    ensures DistinctObjects(made + [u])
  {
    forall i, j | 0 <= i < j < |made| + 1 ensures Apart(made + [u], i, j) {
      if j < |made| {
        assert Apart(made, i, j);
      }
    }
  }

  lemma MadeSnoc(made: seq<Upgrader>, scripts: seq<Script>, u: Upgrader)
    requires |made| < |scripts| && AllMadeFrom(made, scripts) && MadeFrom(u, scripts[|made|])
    ensures AllMadeFrom(made + [u], scripts)
  {
    forall k | 0 <= k < |made| + 1 ensures MadeFrom((made + [u])[k], scripts[k]) {
      if k < |made| {
        assert MadeFrom(made[k], scripts[k]);
      }
    }
  }

  /** The registries hold the upgraders that `ix` names. */
  ghost predicate Holds(byTag: map<string, Upgrader>, legacy: map<int, Upgrader>, ix: Index, made: seq<Upgrader>) {
    && DistinctObjects(made)
    && HoldsAll(byTag, ix.tags, made)
    && HoldsAll(legacy, ix.versions, made)
  }

  ghost predicate HoldsAt<K(!new)>(registry: map<K, Upgrader>, index: map<K, nat>, made: seq<Upgrader>, key: K)
    requires key in registry && key in index
  {
    index[key] < |made| && registry[key] == made[index[key]]
  }

  ghost predicate HoldsAll<K(!new)>(registry: map<K, Upgrader>, index: map<K, nat>, made: seq<Upgrader>) {
    && registry.Keys == index.Keys
    && forall k {:trigger HoldsAt(registry, index, made, k)} :: k in registry ==> HoldsAt(registry, index, made, k)
  }

  lemma HoldsMore<K(!new)>(registry: map<K, Upgrader>, index: map<K, nat>, made: seq<Upgrader>, u: Upgrader)
    requires HoldsAll(registry, index, made)
    ensures HoldsAll(registry, index, made + [u])
  {
    forall k | k in registry ensures HoldsAt(registry, index, made + [u], k) {
      assert HoldsAt(registry, index, made, k);
    }
  }

  lemma HoldsAdded<K(!new)>(registry: map<K, Upgrader>, index: map<K, nat>, made: seq<Upgrader>, key: K, u: Upgrader)
    requires HoldsAll(registry, index, made)
    ensures HoldsAll(registry[key := u], index[key := |made|], made + [u])
  {
    var registry', index' := registry[key := u], index[key := |made|];
    forall k | k in registry' ensures HoldsAt(registry', index', made + [u], k) {
      if k != key {
        assert HoldsAt(registry, index, made, k);
      }
    }
  }

  lemma HoldsSnoc(byTag: map<string, Upgrader>, legacy: map<int, Upgrader>, ix: Index, made: seq<Upgrader>,
                  s: Script, u: Upgrader)
    requires Holds(byTag, legacy, ix, made) && u !in made && MadeFrom(u, s)
    ensures Holds(byTag[u.tag := u],
                  match u.legacyVersion case None => legacy case Some(v) => legacy[v := u],
                  ix.With(s, |made|), made + [u])
  {
    DistinctSnoc(made, u);
    HoldsAdded(byTag, ix.tags, made, u.tag, u);
    match u.legacyVersion {
      case None => HoldsMore(legacy, ix.versions, made, u);
      case Some(v) => HoldsAdded(legacy, ix.versions, made, v, u);
    }
  }

  class Registry {
    var tagSet: set<string>
    var untagSet: set<string>
    var byTag: map<string, Upgrader>
    var legacy: map<int, Upgrader>
    ghost var all: set<Upgrader>

    ghost predicate Valid()
      reads this
    {
      && byTag.Keys == tagSet + untagSet
      && (forall t <- byTag :: byTag[t] in all && byTag[t].tag == t
                               && t in if byTag[t].kind.Upgrade? then tagSet else untagSet)
      && (forall v <- legacy :: legacy[v] in all && legacy[v].tag in byTag && legacy[v].legacyVersion == Some(v))
    }

    /** The registry as a value. */
    ghost function View(): Registered
      requires Valid()
      reads this, all
    {
      Registered(tagSet, untagSet, map t | t in byTag :: Node(byTag[t].kind, byTag[t].depends))
    }

    lemma ViewWellFormed()
      requires Valid()
      ensures View().WellFormed()
    {
    }

    constructor ()
      ensures Valid() && byTag == map[] && legacy == map[] && all == {} && tagSet == untagSet == {}
    {
      tagSet, untagSet, byTag, legacy, all := {}, {}, map[], map[], {};
    }

    /** One upgrader constructed.  A later script with the same tag or legacy version
        replaces an earlier one. */
    method Register(s: Script) returns (r: Result<Upgrader, LoadError>)
      requires Valid()
      modifies this
      ensures r.Err? ==> !s.upgrader && !s.downgrader && r.error == NoMethod(s.tag)
      ensures r.Ok? ==> (s.upgrader || s.downgrader) && Valid() && Added(r.value)
      ensures r.Ok? ==> fresh(r.value) && r.value.tag == s.tag && r.value.depends == s.depends
      ensures r.Ok? ==> r.value.fwdDepends == s.fwdDepends && r.value.legacyVersion == s.legacyVersion
      ensures r.Ok? ==> r.value.kind == KindOf(s)
    {
      if !s.upgrader && !s.downgrader {
        return Err(NoMethod(s.tag));
      }
      var u := new Upgrader(s);
      Add(u);
      r := Ok(u);
    }

    /** The effect of one registration on the class-level collections. */
    twostate predicate Added(new u: Upgrader)
      reads this
    {
      && all == old(all) + {u}
      && byTag == old(byTag)[u.tag := u]
      && tagSet == old(tagSet) + (if u.kind.Upgrade? then {u.tag} else {})
      && untagSet == old(untagSet) + (if u.kind.Upgrade? then {} else {u.tag})
      && legacy == match u.legacyVersion case None => old(legacy) case Some(v) => old(legacy)[v := u]
    }

    method Add(u: Upgrader)
      requires Valid()
      modifies this
      ensures Valid() && Added(u)
    {
      byTag := byTag[u.tag := u];
      all := all + {u};
      if u.kind.Upgrade? {
        tagSet := tagSet + {u.tag};
      } else {
        untagSet := untagSet + {u.tag};
      }
      assert byTag.Keys == tagSet + untagSet;
      if u.legacyVersion.Some? {
        legacy := legacy[u.legacyVersion.value := u];
      }
    }

    /** `u` is the current upgrader of a legacy version from 3 up to, not including, `n`. */
    ghost predicate InChain(u: Upgrader, n: int)
      reads this
    {
      && u.legacyVersion.Some?
      && 3 <= u.legacyVersion.value < n
      && u.legacyVersion.value in legacy
      && legacy[u.legacyVersion.value] == u
    }

    ghost function VersionTag(v: int): string
      reads this
    {
      if v in legacy then legacy[v].tag else ""
    }

    /** Versions below `n` have been chained: each depends on exactly the version before
        it, and nothing else has changed. */
    ghost predicate ChainedUpTo(declared: map<Upgrader, seq<string>>, n: int)
      reads this, all
    {
      forall u <- all ::
        && u in declared
        && u.depends == if InChain(u, n) then [VersionTag(u.legacyVersion.value - 1)] else declared[u]
    }

    method ChainOne(i: int, ghost declared: map<Upgrader, seq<string>>)
      requires Valid() && i >= 3 && i in legacy && i - 1 in legacy && ChainedUpTo(declared, i)
      modifies all`depends
      ensures ChainedUpTo(declared, i + 1)
    {
      legacy[i].depends := [legacy[i - 1].tag];
    }

    /** The linear dependences of the legacy versions, from version 3 up to the first gap. */
    method ChainLegacy(ghost declared: map<Upgrader, seq<string>>) returns (r: Result<int, LoadError>)
      requires Valid() && ChainedUpTo(declared, 3)
      modifies all`depends
      ensures r.Err? <==> 3 in legacy && 2 !in legacy
      ensures r.Ok? ==> r.value >= 3 && r.value !in legacy && ChainedUpTo(declared, r.value)
      ensures r.Ok? && r.value > 3 ==> Contiguous(legacy.Keys, r.value)
    {
      var i := 3;
      ghost var above := legacy.Keys;
      while i in legacy
        invariant i >= 3 && (i > 3 ==> Contiguous(legacy.Keys, i) && 2 in legacy)
        invariant ChainedUpTo(declared, i)
        invariant forall v <- legacy :: v >= i ==> v in above
        decreases above
      {
        if i - 1 !in legacy {
          return Err(NoLegacy(i - 1));
        }
        ChainOne(i, declared);
        above := above - {i};
        i := i + 1;
      }
      r := Ok(i);
    }

    // ---- Forward dependencies and the audit ----

    ghost predicate Current(u: Upgrader)
      reads this
    {
      u.tag in byTag && byTag[u.tag] == u
    }

    /** Append `t` to the dependencies of everything it forward-depends on. */
    method Forward(t: string) returns (r: Result<(), LoadError>)
      requires Valid() && t in byTag
      modifies all`depends
      ensures r.Ok? <==> forall fd <- byTag[t].fwdDepends :: fd in byTag
      ensures r.Ok? ==> forall u <- all ::
        Elements(u.depends) == Elements(old(u.depends)) + if Current(u) && u.tag in byTag[t].fwdDepends then {t} else {}
    {
      var fwd := byTag[t].fwdDepends;
      for k := 0 to |fwd|
        invariant forall fd <- fwd[..k] :: fd in byTag
        invariant forall u <- all ::
          Elements(u.depends) == Elements(old(u.depends)) + if Current(u) && u.tag in fwd[..k] then {t} else {}
      {
        var fd := fwd[k];
        if fd !in byTag {
          return Err(BadForward(t, fd));
        }
        var target := byTag[fd];
        assert Elements(target.depends + [t]) == Elements(target.depends) + {t};
        target.depends := target.depends + [t];
        assert fwd[..k + 1] == fwd[..k] + [fd];
      }
      assert fwd[..|fwd|] == fwd;
      r := Ok(());
    }

    method Audit(t: string) returns (r: Result<(), LoadError>)
      requires Valid() && t in byTag
      ensures r.Ok? <==> Elements(byTag[t].depends) <= byTag.Keys
    {
      var depends := byTag[t].depends;
      for k := 0 to |depends|
        invariant forall d <- depends[..k] :: d in byTag
      {
        if depends[k] !in byTag {
          assert depends[k] in Elements(depends);
          return Err(BadDependency(t, depends[k]));
        }
      }
      r := Ok(());
    }

    /** The tags among `done` that forward-depend on `u`. */
    ghost function ForwardsTo(u: Upgrader, done: set<string>): set<string>
      reads this
    {
      if Current(u) then set d | d in done && d in byTag && u.tag in byTag[d].fwdDepends else {}
    }

    lemma ForwardsStep(u: Upgrader, done: set<string>, t: string)
      requires t in byTag
      ensures ForwardsTo(u, done + {t})
           == ForwardsTo(u, done) + if Current(u) && u.tag in byTag[t].fwdDepends then {t} else {}
    {
    }

    /** What `u` depends on: what was declared, and what `done` forwarded to it. */
    ghost predicate Edges(declared: map<Upgrader, set<string>>, done: set<string>)
      reads this, all
    {
      forall u <- all :: u in declared && Elements(u.depends) == declared[u] + ForwardsTo(u, done)
    }

    /** Every forward and every declared dependency of `t` is registered. */
    ghost predicate Clean(declared: map<Upgrader, set<string>>, t: string)
      reads this
    {
      && t in byTag
      && (forall fd <- byTag[t].fwdDepends :: fd in byTag)
      && (byTag[t] in declared ==> declared[byTag[t]] <= byTag.Keys)
    }

    method ResolveOne(t: string, ghost declared: map<Upgrader, set<string>>, ghost done: set<string>)
      returns (r: Result<(), LoadError>)
      requires Valid() && t in byTag && done <= byTag.Keys && Edges(declared, done)
      modifies all`depends
      ensures r.Ok? <==> Clean(declared, t)
      ensures r.Ok? ==> Edges(declared, done + {t})
    {
      r := Forward(t);
      if r.Err? {
        return;
      }
      forall u | u in all ensures Elements(u.depends) == declared[u] + ForwardsTo(u, done + {t}) {
        ForwardsStep(u, done, t);
      }
      r := Audit(t);
      assert Elements(byTag[t].depends) == declared[byTag[t]] + ForwardsTo(byTag[t], done + {t});
    }

    /** Resolving succeeds exactly when every forward and every declared dependency of a
        registered upgrader is registered.  The result is audited, including what was
        appended after its list had been checked, and the edges are exactly the declared
        and the forwarded ones. */
    method Resolve(ghost declared: map<Upgrader, set<string>>) returns (r: Result<(), LoadError>)
      requires Valid() && Edges(declared, {})
      modifies all`depends
      ensures r.Ok? <==> forall t <- byTag :: Clean(declared, t)
      ensures r.Ok? ==> Edges(declared, byTag.Keys)
    {
      var todo := byTag.Keys;
      ghost var done: set<string> := {};
      while todo != {}
        invariant done + todo == byTag.Keys
        invariant Edges(declared, done) && forall t <- done :: Clean(declared, t)
        decreases todo
      {
        var t :| t in todo;
        r := ResolveOne(t, declared, done);
        if r.Err? {
          return;
        }
        todo := todo - {t};
        done := done + {t};
      }
      r := Ok(());
    }

    lemma ResolvedIsAudited(declared: map<Upgrader, set<string>>)
      requires Valid() && Edges(declared, byTag.Keys) && forall t <- byTag :: Clean(declared, t)
      ensures View().Audited()
    {
      var r := View();
      forall t, d | t in r.nodes && d in r.nodes[t].depends ensures d in r.nodes {
        assert Clean(declared, t);
        assert d in Elements(byTag[t].depends);
        assert Elements(byTag[t].depends) == declared[byTag[t]] + ForwardsTo(byTag[t], byTag.Keys);
      }
    }

    /** What `u` depends on once the legacy versions have been chained. */
    ghost function Chain(declared: map<Upgrader, seq<string>>, u: Upgrader): set<string>
      requires u in declared
      reads this
    {
      if u.legacyVersion.Some? && Chains(u, u.legacyVersion.value) then {VersionTag(u.legacyVersion.value - 1)}
      else Elements(declared[u])
    }

    /** `u` is the current upgrader of version `v`, and no version up to it is missing. */
    ghost predicate Chains(u: Upgrader, v: int)
      reads this
    {
      v >= 3 && Contiguous(legacy.Keys, v + 1) && v in legacy && legacy[v] == u
    }

    lemma ChainedBelowGap(declared: map<Upgrader, seq<string>>, n: int, u: Upgrader)
      requires n >= 3 && n !in legacy && (n > 3 ==> Contiguous(legacy.Keys, n))
      requires u in declared
      requires u.depends == if InChain(u, n) then [VersionTag(u.legacyVersion.value - 1)] else declared[u]
      ensures Elements(u.depends) == Chain(declared, u)
    {
      if u.legacyVersion.Some? {
        var v := u.legacyVersion.value;
        if 3 <= v < n {
          ContiguousBelow(legacy.Keys, n, v + 1);
        } else if v >= 3 && Contiguous(legacy.Keys, v + 1) {
          ContiguousHas(legacy.Keys, v + 1, n);
        }
      }
    }

    /** Every dependency can be resolved: what connecting needs. */
    ghost predicate Connectable(declared: map<Upgrader, seq<string>>)
      requires forall u <- all :: u in declared
      reads this
    {
      && (3 in legacy ==> 2 in legacy)
      && (forall t <- byTag :: byTag[t] in all
                               && (forall fd <- byTag[t].fwdDepends :: fd in byTag)
                               && Chain(declared, byTag[t]) <= byTag.Keys)
    }

    /** Every upgrader depends on what it has of itself and on what was forwarded to it. */
    ghost predicate Connected(declared: map<Upgrader, seq<string>>)
      requires forall u <- all :: u in declared
      reads this, all
    {
      forall u {:trigger ConnectedAt(declared, u)} :: u in all ==> ConnectedAt(declared, u)
    }

    ghost predicate ConnectedAt(declared: map<Upgrader, seq<string>>, u: Upgrader)
      requires u in declared
      reads this, u
    {
      Elements(u.depends) == Chain(declared, u) + ForwardsTo(u, byTag.Keys)
    }

    /** Chain the legacy versions, then resolve and audit the dependencies.  It succeeds
        exactly when every dependency can be resolved; then an upgrader depends on what was
        declared or chained, and on what was forwarded to it, and on nothing else. */
    method Connect(ghost declared: map<Upgrader, seq<string>>) returns (r: Result<(), LoadError>)
      requires Valid() && forall u <- all :: u in declared && u.depends == declared[u]
      modifies all`depends
      ensures r.Ok? <==> Connectable(declared)
      ensures r.Ok? ==> View().Audited()
      ensures r.Ok? ==> Connected(declared)
    {
      var c := ChainLegacy(declared);
      if c.Err? {
        return Err(c.error);
      }
      ghost var chained := map u | u in all :: Chain(declared, u);
      forall u | u in all ensures Elements(u.depends) == Chain(declared, u) {
        ChainedBelowGap(declared, c.value, u);
      }
      assert Edges(chained, {}) by {
        assert forall u <- all :: ForwardsTo(u, {}) == {};
      }
      r := Resolve(chained);
      if r.Ok? {
        ResolvedIsAudited(chained);
        forall u | u in all ensures ConnectedAt(declared, u) {
        }
      }
    }

    /** `made` are the upgraders constructed from `scripts`, one for each, and the registries
        hold those that `ix` names. */
    ghost predicate Made(scripts: seq<Script>, ix: Index, made: seq<Upgrader>)
      reads this
    {
      && AllMadeFrom(made, scripts)
      && Holds(byTag, legacy, ix, made)
    }

    /** The first `n` scripts have been registered. */
    ghost predicate Progress(scripts: seq<Script>, n: nat, made: seq<Upgrader>)
      requires n <= |scripts|
      reads this, made
    {
      && Valid()
      && HaveMethods(scripts, n)
      && |made| == n
      && Made(scripts, IndexUpTo(scripts, n), made)
      && AsDeclared(made, scripts)
      && tagSet == Tags(scripts, n, true)
      && untagSet == Tags(scripts, n, false)
    }

    lemma ProgressOne(scripts: seq<Script>, k: nat, made: seq<Upgrader>, u: Upgrader,
                      byTag0: map<string, Upgrader>, legacy0: map<int, Upgrader>)
      requires Valid() && k < |scripts| && |made| == k && HaveMethods(scripts, k) && HasMethod(scripts[k])
      requires AllMadeFrom(made, scripts) && AsDeclared(made, scripts)
      requires Holds(byTag0, legacy0, IndexUpTo(scripts, k), made)
      requires MadeFrom(u, scripts[k]) && u.depends == scripts[k].depends && u !in made
      requires byTag == byTag0[u.tag := u]
      requires legacy == match u.legacyVersion case None => legacy0 case Some(v) => legacy0[v := u]
      requires tagSet == Tags(scripts, k + 1, true) && untagSet == Tags(scripts, k + 1, false)
      ensures Progress(scripts, k + 1, made + [u])
    {
      HoldsSnoc(byTag0, legacy0, IndexUpTo(scripts, k), made, scripts[k], u);
      MadeSnoc(made, scripts, u);
    }

    method RegisterOne(scripts: seq<Script>, k: nat, ghost made: seq<Upgrader>)
      returns (r: Result<Upgrader, LoadError>)
      requires k < |scripts| && Progress(scripts, k, made)
      modifies this
      ensures r.Ok? <==> HasMethod(scripts[k])
      ensures r.Ok? ==> fresh(r.value) && all == old(all) + {r.value}
      ensures r.Ok? ==> Progress(scripts, k + 1, made + [r.value])
    {
      ghost var byTag0, legacy0 := byTag, legacy;
      r := Register(scripts[k]);
      if r.Ok? {
        ProgressOne(scripts, k, made, r.value, byTag0, legacy0);
      }
    }

    method RegisterAll(scripts: seq<Script>) returns (r: Result<(), LoadError>, ghost made: seq<Upgrader>)
      requires Valid() && byTag == map[] && legacy == map[] && all == {} && tagSet == untagSet == {}
      modifies this
      ensures r.Ok? <==> HaveMethods(scripts, |scripts|)
      ensures r.Ok? ==> fresh(all) && Progress(scripts, |scripts|, made)
    {
      made := [];
      for k := 0 to |scripts|
        invariant fresh(all)
        invariant Progress(scripts, k, made)
      {
        ghost var before := all;
        var u := RegisterOne(scripts, k, made);
        if u.Err? {
          return Err(u.error), made;
        }
        assert fresh(before + {u.value});
        made := made + [u.value];
      }
      r := Ok(());
    }

    /** The versions are those of the scripts. */
    ghost predicate Versioned(scripts: seq<Script>, ix: Index)
      requires ix.Fits(scripts)
      reads this
    {
      && legacy.Keys == ix.versions.Keys
      && forall v <- legacy :: legacy[v].tag == scripts[ix.versions[v]].tag
    }

    lemma VersionsFromScripts(scripts: seq<Script>, ix: Index, made: seq<Upgrader>)
      requires ix.Fits(scripts) && Made(scripts, ix, made)
      ensures Versioned(scripts, ix)
    {
      forall v | v in legacy ensures legacy[v].tag == scripts[ix.versions[v]].tag {
        assert HoldsAt(legacy, ix.versions, made, v);
        assert MadeFrom(made[ix.versions[v]], scripts[ix.versions[v]]);
      }
    }

    lemma OwnFromScript(scripts: seq<Script>, ix: Index, made: seq<Upgrader>,
                        declared: map<Upgrader, seq<string>>, k: nat)
      requires ix.Fits(scripts) && Made(scripts, ix, made) && Versioned(scripts, ix)
      requires k < |made| && made[k] in declared && declared[made[k]] == scripts[k].depends
      ensures Chain(declared, made[k]) == OwnDepends(scripts, ix, k)
    {
      var u := made[k];
      assert MadeFrom(u, scripts[k]);
      if u.legacyVersion.Some? {
        var v := u.legacyVersion.value;
        if v in legacy {
          assert HoldsAt(legacy, ix.versions, made, v);
        }
        if v in legacy && ix.versions[v] < k {
          assert Apart(made, ix.versions[v], k);
        } else if v in legacy && k < ix.versions[v] {
          assert Apart(made, k, ix.versions[v]);
        }
        if Chains(u, v) {
          ContiguousHas(legacy.Keys, v + 1, v - 1);
        }
      }
    }

    lemma ForwardedFromScript(scripts: seq<Script>, ix: Index, made: seq<Upgrader>, t: string)
      requires Valid() && ix.Fits(scripts) && Made(scripts, ix, made) && t in byTag
      ensures ForwardsTo(byTag[t], byTag.Keys) == Forwarded(scripts, ix, t)
    {
      forall d | d in byTag ensures byTag[d].fwdDepends == scripts[ix.tags[d]].fwdDepends {
        assert HoldsAt(byTag, ix.tags, made, d);
        assert MadeFrom(made[ix.tags[d]], scripts[ix.tags[d]]);
      }
    }

    lemma NodeFromScript(scripts: seq<Script>, ix: Index, made: seq<Upgrader>,
                         declared: map<Upgrader, seq<string>>, t: string)
      requires Valid() && ix.Fits(scripts) && Made(scripts, ix, made) && Versioned(scripts, ix) && t in byTag
      requires DeclaresAt(declared, scripts, ix, t)
      ensures Chain(declared, byTag[t]) == OwnDepends(scripts, ix, ix.tags[t])
      ensures byTag[t].fwdDepends == scripts[ix.tags[t]].fwdDepends && byTag[t].kind == KindOf(scripts[ix.tags[t]])
    {
      assert HoldsAt(byTag, ix.tags, made, t);
      OwnFromScript(scripts, ix, made, declared, ix.tags[t]);
      assert MadeFrom(made[ix.tags[t]], scripts[ix.tags[t]]);
    }

    ghost predicate Declares(declared: map<Upgrader, seq<string>>, scripts: seq<Script>, ix: Index)
      requires ix.Fits(scripts) && byTag.Keys == ix.tags.Keys
      reads this
    {
      forall t {:trigger DeclaresAt(declared, scripts, ix, t)} :: t in byTag ==> DeclaresAt(declared, scripts, ix, t)
    }

    ghost predicate DeclaresAt(declared: map<Upgrader, seq<string>>, scripts: seq<Script>, ix: Index, t: string)
      requires ix.Fits(scripts) && t in byTag && t in ix.tags
      reads this
    {
      byTag[t] in declared && declared[byTag[t]] == scripts[ix.tags[t]].depends
    }

    lemma ConnectableFromScripts(scripts: seq<Script>, ix: Index, made: seq<Upgrader>,
                                 declared: map<Upgrader, seq<string>>)
      requires Valid() && ix.Fits(scripts) && Made(scripts, ix, made) && Versioned(scripts, ix)
      requires Declares(declared, scripts, ix) && forall u <- all :: u in declared
      ensures Connectable(declared) <==> Resolvable(scripts, ix)
    {
      forall t | t in byTag
        ensures Chain(declared, byTag[t]) == OwnDepends(scripts, ix, ix.tags[t])
        ensures byTag[t].fwdDepends == scripts[ix.tags[t]].fwdDepends
      {
        assert DeclaresAt(declared, scripts, ix, t);
        NodeFromScript(scripts, ix, made, declared, t);
      }
    }

    lemma NodeReflects(scripts: seq<Script>, ix: Index, made: seq<Upgrader>,
                       declared: map<Upgrader, seq<string>>, t: string)
      requires Valid() && ix.Fits(scripts) && Made(scripts, ix, made) && Versioned(scripts, ix) && t in byTag
      requires DeclaresAt(declared, scripts, ix, t)
      requires ConnectedAt(declared, byTag[t])
      ensures ReflectsAt(View(), scripts, ix, t)
    {
      NodeFromScript(scripts, ix, made, declared, t);
      ForwardedFromScript(scripts, ix, made, t);
    }

    lemma ReflectsScripts(scripts: seq<Script>, ix: Index, made: seq<Upgrader>, declared: map<Upgrader, seq<string>>)
      requires Valid() && ix.Fits(scripts) && Made(scripts, ix, made) && Versioned(scripts, ix)
      requires Declares(declared, scripts, ix) && forall u <- all :: u in declared
      requires tagSet == Tags(scripts, |scripts|, true) && untagSet == Tags(scripts, |scripts|, false)
      requires Connected(declared)
      ensures Reflects(View(), scripts, ix)
    {
      var v := View();
      assert v.nodes.Keys == ix.tags.Keys;
      forall t | t in ix.tags ensures ReflectsAt(v, scripts, ix, t) {
        assert DeclaresAt(declared, scripts, ix, t) && ConnectedAt(declared, byTag[t]);
        NodeReflects(scripts, ix, made, declared, t);
      }
    }

    lemma DeclaredByTag(scripts: seq<Script>, ix: Index, made: seq<Upgrader>, declared: map<Upgrader, seq<string>>)
      requires Valid() && ix.Fits(scripts) && Made(scripts, ix, made) && AsDeclared(made, scripts)
      requires declared == map u | u in all :: u.depends
      ensures Declares(declared, scripts, ix)
    {
      forall t | t in byTag ensures DeclaresAt(declared, scripts, ix, t) {
        assert HoldsAt(byTag, ix.tags, made, t);
      }
    }

    /** Read every script and connect them.  It succeeds exactly when the scripts can be
        loaded, and then the registries are what the scripts say. */
    method LoadAll(scripts: seq<Script>) returns (r: Result<(), LoadError>)
      requires Valid() && byTag == map[] && legacy == map[] && all == {} && tagSet == untagSet == {}
      modifies this
      ensures r.Ok? <==> Loadable(scripts)
      ensures r.Ok? ==> Valid() && Reflects(View(), scripts, IndexOf(scripts)) && View().Audited()
      ensures r.Ok? ==> Versioned(scripts, IndexOf(scripts))
    {
      ghost var made, ix := [], IndexOf(scripts);
      r, made := RegisterAll(scripts);
      if r.Ok? {
        ghost var declared := map u | u in all :: u.depends;
        DeclaredByTag(scripts, ix, made, declared);
        VersionsFromScripts(scripts, ix, made);
        ConnectableFromScripts(scripts, ix, made, declared);
        r := Connect(declared);
        if r.Ok? {
          ReflectsScripts(scripts, ix, made, declared);
        }
      }
    }

    /** The tags of a checkpoint that still carries a linear version number. */
    method LegacyTags(version: int) returns (r: Result<set<string>, LoadError>)
      requires Valid()
      ensures r.Ok? <==> Contiguous(legacy.Keys, version + 1)
      ensures r.Ok? <==> forall v :: 2 <= v <= version ==> v in legacy
      ensures r.Ok? ==> r.value == VersionTags(version)
      ensures r.Ok? ==> r.value == set v | 2 <= v <= version && v in legacy :: legacy[v].tag
    {
      var tags := {};
      var i := 2;
      ContiguousExactly(legacy.Keys, version + 1);
      assert version < 2 ==> VersionTags(version) == VersionTags(1);
      while i < version + 1
        invariant i == 2 || 2 < i <= version + 1
        invariant Contiguous(legacy.Keys, i) && tags == VersionTags(i - 1)
        invariant tags == set v | 2 <= v < i && v in legacy :: legacy[v].tag
      {
        if i !in legacy {
          if Contiguous(legacy.Keys, version + 1) {
            ContiguousHas(legacy.Keys, version + 1, i);
          }
          return Err(NoLegacy(i));
        }
        tags := tags + {legacy[i].tag};
        i := i + 1;
      }
      r := Ok(tags);
    }

    // ---- Migrating one checkpoint ----

    method ReadyTags(tags: set<string>, pending: set<string>) returns (ready: set<string>)
      requires Valid() && pending <= byTag.Keys
      ensures ready == Ready(View(), State(tags, pending))
    {
      ready := {};
      var todo := pending;
      ghost var done: set<string> := {};
      while todo != {}
        invariant done + todo == pending
        invariant ready == set t | t in done && IsReady(View(), t, tags)
        decreases todo
      {
        var t :| t in todo;
        var u := byTag[t];
        var isReady := u.Ready(tags);
        assert View().nodes[t].depends == u.depends;
        if isReady {
          ready := ready + {t};
        }
        todo := todo - {t};
        done := done + {t};
      }
    }

    method ApplyOne(t: string, now: set<string>, ghost tags: set<string>, ghost done: set<string>)
      returns (r: Result<set<string>, string>)
      requires Valid() && t in byTag && done <= byTag.Keys && t !in done
      requires now == Applied(View(), tags, done)
      ensures r.Ok? <==> byTag[t].kind.Upgrade? || t in tags
      ensures r.Ok? ==> r.value == Applied(View(), tags, done + {t})
      ensures r.Err? ==> r.error == t
    {
      AppliedStep(View(), tags, done, t);
      r := byTag[t].Update(now);
    }

    /** Apply everything that is ready, in whatever order the set is iterated. */
    method ApplyReady(ready: set<string>, tags: set<string>)
      returns (r: Result<set<string>, string>, applied: seq<string>)
      requires Valid() && ready <= byTag.Keys
      ensures r.Ok? <==> forall t <- ready :: byTag[t].kind.Upgrade? || t in tags
      ensures r.Ok? ==> Enumerates(applied, ready) && r.value == Applied(View(), tags, ready)
      ensures r.Err? ==> r.error in ready && byTag[r.error].kind.Downgrade? && r.error !in tags
    {
      var now := tags;
      var todo := ready;
      ghost var done: set<string> := {};
      applied := [];
      assert Applied(View(), tags, {}) == tags;
      while todo != {}
        invariant done + todo == ready && done !! todo && Enumerates(applied, done)
        invariant now == Applied(View(), tags, done)
        invariant forall t <- done :: byTag[t].kind.Upgrade? || t in tags
        decreases todo
      {
        var t :| t in todo;
        r := ApplyOne(t, now, tags, done);
        if r.Err? {
          return;
        }
        now := r.value;
        EnumeratesSnoc(applied, done, t);
        applied := applied + [t];
        todo := todo - {t};
        done := done + {t};
      }
      r := Ok(now);
    }

    /** The body of the worklist loop. */
    method RunRound(tags: set<string>, pending: set<string>, ghost now: State) returns (step: Step)
      requires Valid() && pending <= byTag.Keys && now == State(tags, pending)
      ensures step.Next? ==>
        && Ready(View(), now) != {} && Unremovable(View(), now) == {}
        && Enumerates(step.applied, Ready(View(), now))
        && State(step.tags, step.pending) == Round(View(), now)
      ensures step.Blocked? ==> Ready(View(), now) == {}
      ensures step.Missing? ==> step.tag in Unremovable(View(), now)
    {
      var ready := ReadyTags(tags, pending);
      if ready == {} {
        return Blocked;
      }
      var r, applied := ApplyReady(ready, tags);
      if r.Err? {
        return Missing(r.error);
      }
      step := Next(r.value, pending - ready, applied);
    }

    method WorkStep(tags: set<string>, pending: set<string>,
                    ghost v: Registered, ghost start: State, ghost rounds: seq<seq<string>>)
      returns (step: Step)
      requires Valid() && v == View()
      requires Working(v, start, rounds, State(tags, pending))
      ensures step.Next? ==>
        && Working(v, start, rounds + [step.applied], State(step.tags, step.pending))
        && step.pending < pending
      ensures step.Blocked? && pending != {} ==> Migrate(v, start) == Stuck(pending) && !Fails(v, start)
      ensures step.Missing? ==> Fails(v, start)
    {
      ghost var now := State(tags, pending);
      step := RunRound(tags, pending, now);
      match step {
        case Next(tags', pending', applied) =>
          WorkRound(v, start, rounds, now, State(tags', pending'), applied);
        case Blocked =>
          if pending != {} {
            WorkBlocked(v, start, rounds, now);
          }
        case Missing(_) => WorkFails(v, start, rounds, now);
      }
    }

    /** The worklist loop of `process_file`. */
    method Work(tags0: set<string>, pending0: set<string>, ghost v: Registered) returns (m: Migration)
      requires Valid() && v == View() && pending0 <= v.nodes.Keys
      ensures m.Migrated? ==>
        && Finishes(v, State(tags0, pending0))
        && Migrate(v, State(tags0, pending0)) == Done(m.tags)
        && ValidLog(v, State(tags0, pending0), m.log)
      ensures m.Unresolvable? ==>
        Migrate(v, State(tags0, pending0)) == Stuck(m.pending) && !Fails(v, State(tags0, pending0))
      ensures m.MissingTag? ==> Fails(v, State(tags0, pending0))
    {
      ghost var start := State(tags0, pending0);
      ghost var rounds: seq<seq<string>> := [];
      var tags, pending := tags0, pending0;
      var log: seq<string> := [];
      while pending != {}
        invariant Working(v, start, rounds, State(tags, pending)) && log == Flat(rounds)
        decreases pending
      {
        var step := WorkStep(tags, pending, v, start, rounds);
        if step.Blocked? {
          return Unresolvable(pending);
        }
        if step.Missing? {
          return MissingTag(step.tag);
        }
        FlatSnoc(rounds, step.applied);
        rounds := rounds + [step.applied];
        log := log + step.applied;
        tags, pending := step.tags, step.pending;
      }
      WorkDone(v, start, rounds, State(tags, pending));
      m := Migrated(tags, log);
    }

    /** The migration of a set of tags: the worklist loop started on what is to apply. */
    method MigrateTags(tags0: set<string>) returns (m: Migration)
      requires Valid()
      ensures m.Migrated? <==> Finishes(View(), Initial(View(), tags0))
      ensures m.Migrated? ==>
        && Migrate(View(), Initial(View(), tags0)) == Done(m.tags)
        && ValidLog(View(), Initial(View(), tags0), m.log)
      ensures m.Unresolvable? <==>
        Migrate(View(), Initial(View(), tags0)).Stuck? && !Fails(View(), Initial(View(), tags0))
      ensures m.Unresolvable? ==> Migrate(View(), Initial(View(), tags0)) == Stuck(m.pending)
      ensures m.MissingTag? <==> Fails(View(), Initial(View(), tags0))
    {
      ViewWellFormed();
      m := Work(tags0, (tagSet - tags0) + (untagSet * tags0), View());
    }

    /** There is a set of tags to start from. */
    ghost predicate Known(info: VersionInfo)
      reads this
    {
      !info.NoVersion? && (info.LegacyVersion? ==> Contiguous(legacy.Keys, info.version + 1))
    }

    /** Where the tags come from. */
    method StartingTags(info: VersionInfo) returns (r: Result<set<string>, FileError>)
      requires Valid()
      ensures r.Ok? <==> Known(info)
      ensures r.Ok? ==> r.value == StartTags(info)
      ensures r == Err(NoVersionInformation) <==> info.NoVersion?
      ensures r == Err(UnknownVersion) <==> info.LegacyVersion? && !Known(info)
    {
      match info {
        case LegacyVersion(version) =>
          var t := LegacyTags(version);
          r := if t.Err? then Err(UnknownVersion) else Ok(t.value);
        case VersionTags(t) => r := Ok(t);
        case NoVersion => r := Err(NoVersionInformation);
      }
    }

    /** The whole of `process_file`: where the tags come from, the migration, and whether
        the file is rewritten.  Each outcome has its exact condition. */
    method ProcessFile(info: VersionInfo) returns (r: Result<FileChange, FileError>)
      requires Valid()
      ensures r == Err(NoVersionInformation) <==> info.NoVersion?
      ensures r == Err(UnknownVersion) <==> info.LegacyVersion? && !Known(info)
      ensures Known(info) ==>
        var v := View();
        var start := Initial(v, StartTags(info));
        && (r.Err? && r.error.TagMissing? <==> Fails(v, start))
        && (r.Err? && r.error.Aborted? <==> Migrate(v, start).Stuck? && !Fails(v, start))
        && (r.Ok? <==> Finishes(v, start))
      ensures r.Err? && r.error.Aborted? ==> Migrate(View(), Initial(View(), StartTags(info))) == Stuck(r.error.pending)
      ensures r.Ok? ==> (r.value.Unchanged? <==> info.VersionTags? && Initial(View(), info.tags).pending == {})
      ensures r.Ok? && r.value.Written? ==>
        && Migrate(View(), Initial(View(), StartTags(info))) == Done(r.value.tags)
        && ValidLog(View(), Initial(View(), StartTags(info)), r.value.log)
    {
      var t := StartingTags(info);
      if t.Err? {
        return Err(t.error);
      }
      var m := MigrateTags(t.value);
      match m {
        case Unresolvable(pending) => return Err(Aborted(pending));
        case MissingTag(tag) => return Err(TagMissing(tag));
        case Migrated(tags, log) =>
          ChangedIfApplied(t.value, log);
          r := Ok(if info.LegacyVersion? || log != [] then Written(tags, log) else Unchanged);
      }
    }

    lemma ChangedIfApplied(tags: set<string>, log: seq<string>)
      requires Valid() && Migrate(View(), Initial(View(), tags)).Done?
      requires ValidLog(View(), Initial(View(), tags), log)
      ensures log == [] <==> Initial(View(), tags).pending == {}
    {
      AppliesEachOnce(View(), Initial(View(), tags), log);
      if log == [] {
        assert Elements(log) == {};
      }
    }

    ghost function StartTags(info: VersionInfo): set<string>
      reads this
    {
      match info
      case LegacyVersion(version) => VersionTags(version)
      case VersionTags(tags) => tags
      case NoVersion => {}
    }

    /** The tags of versions 2 to `version`. */
    ghost function VersionTags(version: int): set<string>
      reads this
      decreases version
    {
      if version < 2 then {} else VersionTags(version - 1) + {VersionTag(version)}
    }

    lemma {:induction false} TagsFromScripts(scripts: seq<Script>, ix: Index, version: int)
      requires ix.Fits(scripts) && Versioned(scripts, ix) && Contiguous(legacy.Keys, version + 1)
      ensures VersionTags(version) == VersionTagsOf(scripts, ix, version)
      decreases version
    {
      if version >= 2 {
        TagsFromScripts(scripts, ix, version - 1);
      }
    }

    lemma StartFromScripts(scripts: seq<Script>, info: VersionInfo)
      requires Versioned(scripts, IndexOf(scripts)) && Known(info)
      ensures StartTags(info) == TagsOf(scripts, info)
    {
      if info.LegacyVersion? {
        TagsFromScripts(scripts, IndexOf(scripts), info.version);
      }
    }
  }

  method LoadRegistry(scripts: seq<Script>) returns (r: Result<Registry, LoadError>, ghost v: Registered)
    ensures r.Ok? <==> Loadable(scripts)
    ensures r.Ok? ==> r.value.Valid() && r.value.View() == v && r.value.Versioned(scripts, IndexOf(scripts))
    ensures r.Ok? ==> Reflects(v, scripts, IndexOf(scripts)) && v.WellFormed()
  {
    var registry := new Registry();
    v := registry.View();
    var loaded := registry.LoadAll(scripts);
    if loaded.Err? {
      return Err(loaded.error), v;
    }
    registry.ViewWellFormed();
    r, v := Ok(registry), registry.View();
  }

  method ProcessWith(registry: Registry, scripts: seq<Script>, info: VersionInfo, ghost v: Registered)
    returns (r: Result<FileChange, FileError>)
    requires registry.Valid() && registry.View() == v && registry.Versioned(scripts, IndexOf(scripts)) && v.WellFormed()
    ensures
      var start := Initial(v, TagsOf(scripts, info));
      (r.Ok? <==> KnownTo(scripts, info) && Finishes(v, start))
    ensures r.Ok? ==> (r.value.Unchanged? <==> info.VersionTags? && Initial(v, info.tags).pending == {})
    ensures r.Ok? && r.value.Written? ==>
      && Migrate(v, Initial(v, TagsOf(scripts, info))) == Done(r.value.tags)
      && ValidLog(v, Initial(v, TagsOf(scripts, info)), r.value.log)
  {
    if registry.Known(info) {
      registry.StartFromScripts(scripts, info);
    }
    r := registry.ProcessFile(info);
  }
}
