/** What a set of migration scripts says (util/cpt_upgrader.py): which script stands for a tag
and for a legacy version, what each depends on once loaded, and in which order the legacy
versions are applied.
 */
module UpgradeScripts {
  import opened Finite
  import opened Results
  import opened UpgradeGraph

  /** What executing one file under cpt_upgraders/ defines. */
  datatype Script = Script(
    tag: string, depends: seq<string>, fwdDepends: seq<string>,
    upgrader: bool, downgrader: bool, legacyVersion: Option<int>)

  /** What the checkpoint says about itself. */
  datatype VersionInfo = LegacyVersion(version: int) | VersionTags(tags: set<string>) | NoVersion

  /** All versions from 2 up to, not including, `n` are there. */
  predicate Contiguous(keys: set<int>, n: int)
    decreases n
  {
    n > 2 ==> n - 1 in keys && Contiguous(keys, n - 1)
  }

  lemma {:induction false} ContiguousBelow(keys: set<int>, n: int, v: int)
    requires Contiguous(keys, n) && v <= n
    ensures Contiguous(keys, v)
    decreases n - v
  {
    if v < n {
      ContiguousBelow(keys, n, v + 1);
    }
  }

  lemma {:induction false} ContiguousHas(keys: set<int>, n: int, v: int)
    requires Contiguous(keys, n) && 2 <= v < n
    ensures v in keys
    decreases n
  {
    if v < n - 1 {
      ContiguousHas(keys, n - 1, v);
    }
  }

  function KindOf(s: Script): Kind {
    if s.upgrader then Upgrade else Downgrade
  }

  predicate HasMethod(s: Script) {
    s.upgrader || s.downgrader
  }

  predicate HaveMethods(scripts: seq<Script>, n: nat)
    requires n <= |scripts|
  {
    forall k :: 0 <= k < n ==> HasMethod(scripts[k])
  }

  /** The tags of the first `n` scripts that upgrade, or of those that only downgrade. */
  function Tags(scripts: seq<Script>, n: nat, up: bool): set<string>
    requires n <= |scripts|
  {
    if n == 0 then {}
    else Tags(scripts, n - 1, up) + if scripts[n - 1].upgrader == up then {scripts[n - 1].tag} else {}
  }

  /** Which script stands for a tag, and which for a legacy version. */
  datatype Index = Index(tags: map<string, nat>, versions: map<int, nat>)
  {
    ghost predicate Fits(scripts: seq<Script>) {
      && (forall t <- tags :: tags[t] < |scripts| && scripts[tags[t]].tag == t)
      && (forall v <- versions :: versions[v] < |scripts| && scripts[versions[v]].legacyVersion == Some(v))
    }

    /** Script `k` replaces what stood for its tag and version. */
    function With(s: Script, k: nat): Index {
      Index(tags[s.tag := k],
            match s.legacyVersion case None => versions case Some(v) => versions[v := k])
    }
  }

  /** The last of the first `n` scripts of every tag and of every version. */
  function IndexUpTo(scripts: seq<Script>, n: nat): Index
    requires n <= |scripts|
  {
    if n == 0 then Index(map[], map[]) else IndexUpTo(scripts, n - 1).With(scripts[n - 1], n - 1)
  }

  lemma WithFits(scripts: seq<Script>, ix: Index, k: nat)
    requires ix.Fits(scripts) && k < |scripts|
    ensures ix.With(scripts[k], k).Fits(scripts)
  {
  }

  lemma {:induction false} IndexFits(scripts: seq<Script>, n: nat)
    requires n <= |scripts|
    ensures IndexUpTo(scripts, n).Fits(scripts)
  {
    if n == 0 {
    } else {
      IndexFits(scripts, n - 1);
      WithFits(scripts, IndexUpTo(scripts, n - 1), n - 1);
    }
  }

  function IndexOf(scripts: seq<Script>): (ix: Index)
    ensures ix.Fits(scripts)
  {
    IndexFits(scripts, |scripts|);
    IndexUpTo(scripts, |scripts|)
  }

  /** The last of the first `n` scripts with tag `t`, or -1. */
  function LastWith(scripts: seq<Script>, n: nat, t: string): (k: int)
    requires n <= |scripts|
    ensures -1 <= k < n
  {
    if n == 0 then -1 else if scripts[n - 1].tag == t then n - 1 else LastWith(scripts, n - 1, t)
  }

  lemma WithTag(ix: Index, s: Script, k: nat, t: string)
    ensures t in ix.With(s, k).tags <==> t == s.tag || t in ix.tags
    ensures t == s.tag ==> ix.With(s, k).tags[t] == k
    ensures t != s.tag && t in ix.tags ==> ix.With(s, k).tags[t] == ix.tags[t]
  {
  }

  lemma {:induction false} LastStands(scripts: seq<Script>, n: nat, t: string)
    requires n <= |scripts|
    ensures
      var tags, k := IndexUpTo(scripts, n).tags, LastWith(scripts, n, t);
      if k < 0 then t !in tags else t in tags && tags[t] == k
  {
    if n == 0 {
    } else {
      WithTag(IndexUpTo(scripts, n - 1), scripts[n - 1], n - 1, t);
      LastStands(scripts, n - 1, t);
    }
  }

  /** None of the first `n` scripts after script `k` has its tag. */
  ghost predicate NoneLater(scripts: seq<Script>, n: nat, k: nat)
    requires k < n <= |scripts|
  {
    forall j :: k < j < n ==> scripts[j].tag != scripts[k].tag
  }

  lemma {:induction false} LastExactly(scripts: seq<Script>, n: nat, k: nat)
    requires k < n <= |scripts|
    ensures LastWith(scripts, n, scripts[k].tag) >= k
    ensures LastWith(scripts, n, scripts[k].tag) == k <==> NoneLater(scripts, n, k)
  {
    if k < n - 1 {
      LastExactly(scripts, n - 1, k);
    }
  }

  /** A script stands for its tag exactly when no later one has that tag. */
  lemma StandsExactly(scripts: seq<Script>, n: nat, k: nat)
    requires k < n <= |scripts|
    ensures scripts[k].tag in IndexUpTo(scripts, n).tags
    ensures IndexUpTo(scripts, n).tags[scripts[k].tag] == k <==> NoneLater(scripts, n, k)
  {
    LastStands(scripts, n, scripts[k].tag);
    LastExactly(scripts, n, k);
  }

  function VersionTagOf(scripts: seq<Script>, ix: Index, v: int): string
    requires ix.Fits(scripts)
  {
    if v in ix.versions then scripts[ix.versions[v]].tag else ""
  }

  function VersionTagsOf(scripts: seq<Script>, ix: Index, version: int): set<string>
    requires ix.Fits(scripts)
    decreases version
  {
    if version < 2 then {} else VersionTagsOf(scripts, ix, version - 1) + {VersionTagOf(scripts, ix, version)}
  }

  function TagsOf(scripts: seq<Script>, info: VersionInfo): set<string> {
    match info
    case LegacyVersion(version) => VersionTagsOf(scripts, IndexOf(scripts), version)
    case VersionTags(tags) => tags
    case NoVersion => {}
  }

  /** The checkpoint has tags to start from: listed, or those of a version with none missing. */
  predicate KnownTo(scripts: seq<Script>, info: VersionInfo) {
    !info.NoVersion? && (info.LegacyVersion? ==> Contiguous(IndexOf(scripts).versions.Keys, info.version + 1))
  }

  /** What script `k` depends on of itself: the script of a legacy version from 3 on, with none
      missing below it, on the version before; any other script on what it declares. */
  function OwnDepends(scripts: seq<Script>, ix: Index, k: nat): set<string>
    requires ix.Fits(scripts) && k < |scripts|
  {
    match scripts[k].legacyVersion
    case None => Elements(scripts[k].depends)
    case Some(v) =>
      if v >= 3 && Contiguous(ix.versions.Keys, v + 1) && v in ix.versions && ix.versions[v] == k
      then {VersionTagOf(scripts, ix, v - 1)}
      else Elements(scripts[k].depends)
  }

  /** The tags that forward-depend on `t`. */
  function Forwarded(scripts: seq<Script>, ix: Index, t: string): set<string>
    requires ix.Fits(scripts)
  {
    set u | u in ix.tags && t in scripts[ix.tags[u]].fwdDepends
  }

  /** Legacy version 3 does not come without 2, and every dependency names a script. */
  predicate Resolvable(scripts: seq<Script>, ix: Index)
    requires ix.Fits(scripts)
  {
    && (3 in ix.versions ==> 2 in ix.versions)
    && (forall t <- ix.tags ::
          && (forall fd <- scripts[ix.tags[t]].fwdDepends :: fd in ix.tags)
          && OwnDepends(scripts, ix, ix.tags[t]) <= ix.tags.Keys)
  }

  /** What loading needs: every script has a method, and all dependencies can be resolved. */
  predicate Loadable(scripts: seq<Script>) {
    HaveMethods(scripts, |scripts|) && Resolvable(scripts, IndexOf(scripts))
  }

  /** `v` has the tags, the directions and the dependencies that the scripts say. */
  ghost predicate Reflects(v: Registered, scripts: seq<Script>, ix: Index)
    requires ix.Fits(scripts)
  {
    && v.tagSet == Tags(scripts, |scripts|, true)
    && v.untagSet == Tags(scripts, |scripts|, false)
    && v.nodes.Keys == ix.tags.Keys
    && forall t {:trigger ReflectsAt(v, scripts, ix, t)} :: t in ix.tags ==> ReflectsAt(v, scripts, ix, t)
  }

  ghost predicate ReflectsAt(v: Registered, scripts: seq<Script>, ix: Index, t: string)
    requires ix.Fits(scripts) && t in ix.tags && t in v.nodes
  {
    && v.nodes[t].kind == KindOf(scripts[ix.tags[t]])
    && Elements(v.nodes[t].depends) == OwnDepends(scripts, ix, ix.tags[t]) + Forwarded(scripts, ix, t)
  }

  // ---- Legacy versions in order ----

  ghost predicate DistinctTags(scripts: seq<Script>) {
    forall i, j :: 0 <= i < j < |scripts| ==> scripts[i].tag != scripts[j].tag
  }

  /** The script of every legacy version also stands for its own tag. */
  ghost predicate VersionsStand(scripts: seq<Script>, ix: Index)
    requires ix.Fits(scripts)
  {
    forall v {:trigger Stands(scripts, ix, v)} :: v in ix.versions ==> Stands(scripts, ix, v)
  }

  ghost predicate Stands(scripts: seq<Script>, ix: Index, v: int)
    requires ix.Fits(scripts) && v in ix.versions
  {
    VersionTagOf(scripts, ix, v) in ix.tags && ix.tags[VersionTagOf(scripts, ix, v)] == ix.versions[v]
  }

  /** With distinct tags no script of a legacy version is replaced under its tag. */
  lemma DistinctTagsStand(scripts: seq<Script>)
    requires DistinctTags(scripts)
    ensures VersionsStand(scripts, IndexOf(scripts))
  {
    var ix := IndexOf(scripts);
    forall v | v in ix.versions ensures Stands(scripts, ix, v) {
      StandsExactly(scripts, |scripts|, ix.versions[v]);
    }
  }

  lemma DifferentVersions(scripts: seq<Script>, ix: Index, v: int, w: int)
    requires ix.Fits(scripts) && VersionsStand(scripts, ix) && v in ix.versions && w in ix.versions && v != w
    ensures VersionTagOf(scripts, ix, v) != VersionTagOf(scripts, ix, w)
  {
    assert Stands(scripts, ix, v) && Stands(scripts, ix, w);
    assert scripts[ix.versions[v]].legacyVersion == Some(v);
    assert scripts[ix.versions[w]].legacyVersion == Some(w);
  }

  lemma {:induction false} VersionNotBelow(scripts: seq<Script>, ix: Index, version: int, v: int)
    requires ix.Fits(scripts) && VersionsStand(scripts, ix) && version < v && v in ix.versions
    requires Contiguous(ix.versions.Keys, version + 1)
    ensures VersionTagOf(scripts, ix, v) !in VersionTagsOf(scripts, ix, version)
    decreases version
  {
    if version >= 2 {
      VersionNotBelow(scripts, ix, version - 1, v);
      DifferentVersions(scripts, ix, version, v);
    }
  }

  lemma OwnIsBefore(scripts: seq<Script>, ix: Index, v: int)
    requires ix.Fits(scripts) && v >= 3 && Contiguous(ix.versions.Keys, v + 1) && v in ix.versions
    ensures OwnDepends(scripts, ix, ix.versions[v]) == {VersionTagOf(scripts, ix, v - 1)}
  {
  }

  lemma VersionLinked(scripts: seq<Script>, ix: Index, r: Registered, v: int)
    requires ix.Fits(scripts) && Reflects(r, scripts, ix) && VersionsStand(scripts, ix)
    requires v >= 3 && Contiguous(ix.versions.Keys, v + 1)
    ensures VersionTagOf(scripts, ix, v) in r.nodes
    ensures VersionTagOf(scripts, ix, v - 1) in r.nodes[VersionTagOf(scripts, ix, v)].depends
  {
    OwnIsBefore(scripts, ix, v);
    assert Stands(scripts, ix, v);
    var t := VersionTagOf(scripts, ix, v);
    assert ReflectsAt(r, scripts, ix, t);
    assert VersionTagOf(scripts, ix, v - 1) in Elements(r.nodes[t].depends);
  }

  /** The tags of the versions after `version`, up to `last`. */
  function TagsAfterVersion(scripts: seq<Script>, ix: Index, version: int, last: int): (tags: seq<string>)
    requires ix.Fits(scripts)
    ensures |tags| == if last <= version then 0 else last - version
    decreases last - version
  {
    if last <= version then []
    else TagsAfterVersion(scripts, ix, version, last - 1) + [VersionTagOf(scripts, ix, last)]
  }

  lemma {:induction false} TagAt(scripts: seq<Script>, ix: Index, version: int, last: int, v: int)
    requires ix.Fits(scripts) && version < v <= last
    ensures TagsAfterVersion(scripts, ix, version, last)[v - version - 1] == VersionTagOf(scripts, ix, v)
    decreases last - v
  {
    if v < last {
      TagAt(scripts, ix, version, last - 1, v);
    }
  }

  /** The tags of the versions after `version`, up to `last`, form a chain. */
  lemma {:induction false} LegacyChain(scripts: seq<Script>, ix: Index, r: Registered, version: int, last: int)
    requires ix.Fits(scripts) && Reflects(r, scripts, ix) && VersionsStand(scripts, ix)
    requires 1 <= version <= last && Contiguous(ix.versions.Keys, last + 1)
    ensures
      var chain := TagsAfterVersion(scripts, ix, version, last);
      (forall t <- chain :: t in r.nodes && t !in VersionTagsOf(scripts, ix, version)) && Chained(r, chain)
    decreases last - version
  {
    if version < last {
      var before, t := TagsAfterVersion(scripts, ix, version, last - 1), VersionTagOf(scripts, ix, last);
      LegacyChain(scripts, ix, r, version, last - 1);
      ContiguousBelow(ix.versions.Keys, last + 1, version + 1);
      VersionNotBelow(scripts, ix, version, last);
      assert Stands(scripts, ix, last) && t in r.nodes;
      if version < last - 1 {
        VersionLinked(scripts, ix, r, last);
        TagAt(scripts, ix, version, last - 1, last - 1);
      }
      ChainedSnoc(r, before, t);
    }
  }

  lemma ChainWith(scripts: seq<Script>, ix: Index, r: Registered, version: int, last: int, i: int, j: int)
    returns (chain: seq<string>, a: nat, b: nat)
    requires ix.Fits(scripts) && Reflects(r, scripts, ix) && VersionsStand(scripts, ix)
    requires 1 <= version < i < j <= last && Contiguous(ix.versions.Keys, last + 1)
    ensures forall t <- chain :: t in r.nodes && t !in VersionTagsOf(scripts, ix, version)
    ensures Chained(r, chain)
    ensures a < b < |chain| && chain[a] == VersionTagOf(scripts, ix, i) && chain[b] == VersionTagOf(scripts, ix, j)
  {
    LegacyChain(scripts, ix, r, version, last);
    TagAt(scripts, ix, version, last, i);
    TagAt(scripts, ix, version, last, j);
    chain, a, b := TagsAfterVersion(scripts, ix, version, last), i - version - 1, j - version - 1;
  }

  lemma VersionsInOrder(scripts: seq<Script>, ix: Index, r: Registered, version: int, last: int,
                        tags: set<string>, log: seq<string>, i: int, j: int, p: nat, q: nat)
    requires ix.Fits(scripts) && Reflects(r, scripts, ix) && VersionsStand(scripts, ix) && r.WellFormed()
    requires 1 <= version < i < j <= last && Contiguous(ix.versions.Keys, last + 1)
    requires tags == VersionTagsOf(scripts, ix, version)
    requires ValidLog(r, Initial(r, tags), log) && Migrate(r, Initial(r, tags)).Done?
    requires p < |log| && q < |log|
    requires log[p] == VersionTagOf(scripts, ix, i) && log[q] == VersionTagOf(scripts, ix, j)
    ensures p < q
  {
    var chain, a, b := ChainWith(scripts, ix, r, version, last, i, j);
    MigrationFollowsChain(r, tags, log, chain, p, q, a, b);
  }

  /** A checkpoint of linear version `version` gets the remaining legacy upgraders in
      increasing version order, whatever scripts with distinct tags were loaded, in either
      direction, and in whatever order each round is applied.  There is no version below 2,
      so smaller numbers mean a checkpoint without tags. */
  lemma LegacyInOrder(scripts: seq<Script>, ix: Index, r: Registered, version: int, last: int,
                      tags: set<string>, log: seq<string>, i: int, j: int, p: nat, q: nat)
    requires ix == IndexOf(scripts) && Reflects(r, scripts, ix) && r.WellFormed() && DistinctTags(scripts)
    requires version < i < j <= last && 2 <= i && Contiguous(ix.versions.Keys, last + 1)
    requires tags == TagsOf(scripts, LegacyVersion(version))
    requires ValidLog(r, Initial(r, tags), log) && Migrate(r, Initial(r, tags)).Done?
    requires p < |log| && q < |log|
    requires log[p] == VersionTagOf(scripts, ix, i) && log[q] == VersionTagOf(scripts, ix, j)
    ensures p < q
  {
    DistinctTagsStand(scripts);
    VersionsInOrder(scripts, ix, r, if version < 1 then 1 else version, last, tags, log, i, j, p, q);
  }

  // ---- What the scripts say, without the registry ----

  /** The versions below `n` are all there, from 2 on. */
  lemma {:induction false} ContiguousExactly(keys: set<int>, n: int)
    ensures Contiguous(keys, n) <==> forall v :: 2 <= v < n ==> v in keys
    decreases n
  {
    if n > 2 {
      ContiguousExactly(keys, n - 1);
    }
  }

  /** A linear version stands for the tags of the versions from 2 up to it. */
  lemma {:induction false} VersionTagsExactly(scripts: seq<Script>, ix: Index, version: int, t: string)
    requires ix.Fits(scripts)
    ensures t in VersionTagsOf(scripts, ix, version)
       <==> exists v :: 2 <= v <= version && VersionTagOf(scripts, ix, v) == t
    decreases version
  {
    if version >= 2 {
      VersionTagsExactly(scripts, ix, version - 1, t);
    }
  }

  lemma {:induction false} TagsExactly(scripts: seq<Script>, n: nat, up: bool, t: string)
    requires n <= |scripts|
    ensures t in Tags(scripts, n, up) <==> exists k :: 0 <= k < n && scripts[k].tag == t && scripts[k].upgrader == up
  {
    if n == 0 {
    } else {
      TagsExactly(scripts, n - 1, up, t);
    }
  }

  /** A finished migration leaves the tags of all scripts that upgrade, and of those the
      checkpoint had before, the ones that no script downgrades. */
  lemma FinalTagsOfScripts(scripts: seq<Script>, r: Registered, tags: set<string>, t: string)
    requires Reflects(r, scripts, IndexOf(scripts)) && r.Unambiguous() && Migrate(r, Initial(r, tags)).Done?
    ensures t in Migrate(r, Initial(r, tags)).tags
       <==> || (exists k :: 0 <= k < |scripts| && scripts[k].tag == t && scripts[k].upgrader)
            || (t in tags && !exists k :: 0 <= k < |scripts| && scripts[k].tag == t && !scripts[k].upgrader)
  {
    FinalTags(r, tags);
    TagsExactly(scripts, |scripts|, true, t);
    TagsExactly(scripts, |scripts|, false, t);
  }

  /** What stands in the registry depends on what its script declares, unless it is chained to a
      legacy version, and on every script that names it as a forward dependency. */
  lemma DependsOnDeclared(scripts: seq<Script>, ix: Index, r: Registered, t: string, d: string)
    requires ix.Fits(scripts) && Reflects(r, scripts, ix) && t in ix.tags
    requires || (d in scripts[ix.tags[t]].depends && scripts[ix.tags[t]].legacyVersion == None)
             || (d in ix.tags && t in scripts[ix.tags[d]].fwdDepends)
    ensures t in r.nodes && d in r.nodes[t].depends
  {
    assert ReflectsAt(r, scripts, ix, t);
    assert d in Elements(r.nodes[t].depends);
  }

  /** In a finished migration a missing tag that a script declares, or that forward-depends on
      it, is applied before it. */
  lemma DeclaredInOrder(scripts: seq<Script>, r: Registered, tags: set<string>, log: seq<string>,
                        t: string, d: string, p: nat, q: nat)
    requires Reflects(r, scripts, IndexOf(scripts)) && r.WellFormed()
    requires ValidLog(r, Initial(r, tags), log) && Migrate(r, Initial(r, tags)).Done?
    requires t in IndexOf(scripts).tags && d !in tags
    requires
      var ix := IndexOf(scripts);
      || (d in scripts[ix.tags[t]].depends && scripts[ix.tags[t]].legacyVersion == None)
      || (d in ix.tags && t in scripts[ix.tags[d]].fwdDepends)
    requires p < |log| && q < |log| && log[p] == d && log[q] == t
    ensures p < q
  {
    DependsOnDeclared(scripts, IndexOf(scripts), r, t, d);
    AppliedInOrder(r, tags, log, t, d, p, q);
  }

  lemma AppliedInOrder(r: Registered, tags: set<string>, log: seq<string>, t: string, d: string, p: nat, q: nat)
    requires r.WellFormed() && ValidLog(r, Initial(r, tags), log) && Migrate(r, Initial(r, tags)).Done?
    requires t in r.nodes && d in r.nodes[t].depends && d !in tags
    requires p < |log| && q < |log| && log[p] == d && log[q] == t
    ensures p < q
  {
    AppliesEachOnce(r, Initial(r, tags), log);
    EnumeratesDistinct(log, Initial(r, tags).pending);
    AppliesDependenciesFirst(r, Initial(r, tags), log);
    var m := AppliedBefore(r, tags, log, q, d);
  }

  // ---- Which scripts can be loaded ----

  ghost predicate HasTag(scripts: seq<Script>, n: nat, t: string)
    requires n <= |scripts|
  {
    exists k :: 0 <= k < n && scripts[k].tag == t
  }

  ghost predicate HasVersion(scripts: seq<Script>, n: nat, v: int)
    requires n <= |scripts|
  {
    exists k :: 0 <= k < n && scripts[k].legacyVersion == Some(v)
  }

  lemma {:induction false} IndexKeys(scripts: seq<Script>, n: nat, t: string, v: int)
    requires n <= |scripts|
    ensures t in IndexUpTo(scripts, n).tags <==> HasTag(scripts, n, t)
    ensures v in IndexUpTo(scripts, n).versions <==> HasVersion(scripts, n, v)
  {
    if n == 0 {
    } else {
      IndexKeys(scripts, n - 1, t, v);
      if HasTag(scripts, n - 1, t) {
        var k :| 0 <= k < n - 1 && scripts[k].tag == t;
      }
      if HasVersion(scripts, n - 1, v) {
        var k :| 0 <= k < n - 1 && scripts[k].legacyVersion == Some(v);
      }
    }
  }

  /** The last script of a version from 3 on, with all versions from 2 on before it there. */
  ghost predicate IsChained(scripts: seq<Script>, k: nat)
    requires k < |scripts|
  {
    && scripts[k].legacyVersion.Some?
    && scripts[k].legacyVersion.value >= 3
    && (forall v :: 2 <= v < scripts[k].legacyVersion.value ==> HasVersion(scripts, |scripts|, v))
    && (forall j :: k < j < |scripts| ==> scripts[j].legacyVersion != scripts[k].legacyVersion)
  }

  lemma {:induction false} LastOfVersion(scripts: seq<Script>, n: nat, k: nat)
    requires k < n <= |scripts| && scripts[k].legacyVersion.Some?
    ensures
      var versions, v := IndexUpTo(scripts, n).versions, scripts[k].legacyVersion.value;
      && v in versions
      && versions[v] >= k
      && (versions[v] == k <==> forall j :: k < j < n ==> scripts[j].legacyVersion != scripts[k].legacyVersion)
  {
    if k < n - 1 {
      LastOfVersion(scripts, n - 1, k);
    }
  }

  lemma ChainedExactly(scripts: seq<Script>, k: nat)
    requires k < |scripts| && scripts[k].legacyVersion.Some?
    ensures
      var ix, v := IndexOf(scripts), scripts[k].legacyVersion.value;
      IsChained(scripts, k)
      <==> v >= 3 && Contiguous(ix.versions.Keys, v + 1) && v in ix.versions && ix.versions[v] == k
  {
    var ix, v := IndexOf(scripts), scripts[k].legacyVersion.value;
    LastOfVersion(scripts, |scripts|, k);
    ContiguousExactly(ix.versions.Keys, v + 1);
    forall w ensures w in ix.versions <==> HasVersion(scripts, |scripts|, w) {
      IndexKeys(scripts, |scripts|, "", w);
    }
  }

  /** Every name that script `k` depends on, of itself or forward, is the tag of a script. */
  ghost predicate NamesScripts(scripts: seq<Script>, k: nat)
    requires k < |scripts|
  {
    && (forall fd <- scripts[k].fwdDepends :: HasTag(scripts, |scripts|, fd))
    && (!IsChained(scripts, k) ==> forall d <- scripts[k].depends :: HasTag(scripts, |scripts|, d))
  }

  lemma NamesExactly(scripts: seq<Script>, k: nat)
    requires k < |scripts|
    ensures
      var ix := IndexOf(scripts);
      NamesScripts(scripts, k)
      <==> && (forall fd <- scripts[k].fwdDepends :: fd in ix.tags)
           && OwnDepends(scripts, ix, k) <= ix.tags.Keys
  {
    var ix := IndexOf(scripts);
    forall t ensures t in ix.tags <==> HasTag(scripts, |scripts|, t) {
      IndexKeys(scripts, |scripts|, t, 0);
    }
    if scripts[k].legacyVersion.Some? {
      ChainedExactly(scripts, k);
    }
    if IsChained(scripts, k) {
      BeforeIsTag(scripts, scripts[k].legacyVersion.value);
    } else {
      assert OwnDepends(scripts, ix, k) == Elements(scripts[k].depends);
      assert forall d <- scripts[k].depends :: d in Elements(scripts[k].depends);
    }
  }

  lemma BeforeIsTag(scripts: seq<Script>, v: int)
    requires v >= 3 && Contiguous(IndexOf(scripts).versions.Keys, v + 1)
    ensures VersionTagOf(scripts, IndexOf(scripts), v - 1) in IndexOf(scripts).tags
  {
    var ix := IndexOf(scripts);
    ContiguousHas(ix.versions.Keys, v + 1, v - 1);
    StandsExactly(scripts, |scripts|, ix.versions[v - 1]);
  }

  /** Scripts can be loaded exactly when each has a method, version 3 does not come without 2,
      and every script that no later one replaces names only tags of scripts. */
  lemma LoadableExactly(scripts: seq<Script>)
    ensures Loadable(scripts)
       <==> && (forall k :: 0 <= k < |scripts| ==> scripts[k].upgrader || scripts[k].downgrader)
            && (HasVersion(scripts, |scripts|, 3) ==> HasVersion(scripts, |scripts|, 2))
            && (forall k :: 0 <= k < |scripts| && NoneLater(scripts, |scripts|, k) ==> NamesScripts(scripts, k))
  {
    var ix := IndexOf(scripts);
    IndexKeys(scripts, |scripts|, "", 3);
    IndexKeys(scripts, |scripts|, "", 2);
    forall k | 0 <= k < |scripts|
      ensures scripts[k].tag in ix.tags && (ix.tags[scripts[k].tag] == k <==> NoneLater(scripts, |scripts|, k))
      ensures NamesScripts(scripts, k)
         <==> && (forall fd <- scripts[k].fwdDepends :: fd in ix.tags)
              && OwnDepends(scripts, ix, k) <= ix.tags.Keys
    {
      StandsExactly(scripts, |scripts|, k);
      NamesExactly(scripts, k);
    }
    if Resolvable(scripts, ix) {
      forall k | 0 <= k < |scripts| && NoneLater(scripts, |scripts|, k) ensures NamesScripts(scripts, k) {
        assert scripts[k].tag in ix.tags;
      }
    }
    if forall k :: 0 <= k < |scripts| && NoneLater(scripts, |scripts|, k) ==> NamesScripts(scripts, k) {
      forall t | t in ix.tags ensures NamesScripts(scripts, ix.tags[t]) {
        assert scripts[ix.tags[t]].tag == t;
      }
    }
  }
}
