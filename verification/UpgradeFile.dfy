/** What the upgrader reads from a checkpoint file and writes back (util/cpt_upgrader.py).

The tags stand in the file as text.  A second run starts from that text, so it has nothing to
do only if the text says what was meant.
 */
module UpgradeFile {
  import opened Finite
  import opened Results
  import opened Text
  import opened UpgradeGraph
  import opened UpgradeScripts
  import opened UpgradeRegistry

  /** The section `root.globals`, and its option `version_tags`. */
  datatype Section = NoSection | Section(versionTags: Option<string>)

  /** The option `cpt_ver` of `root`, the option `version_tags` of the deprecated section
      `Globals`, the section `root.globals`, and everything else. */
  datatype Checkpoint<D> = Checkpoint(version: Option<int>, oldTags: Option<string>, globals: Section, rest: D)

  /** What the script of a tag does to a checkpoint. */
  type Effect<!D> = (string, Checkpoint<D>) -> Checkpoint<D>

  function TagsIn(text: string): set<string> {
    Elements(Words(text))
  }

  /** The version, or else the deprecated tags, or else the tags. */
  function InfoOf<D>(c: Checkpoint<D>): VersionInfo {
    if c.version.Some? then LegacyVersion(c.version.value)
    else if c.oldTags.Some? then VersionTags(TagsIn(c.oldTags.value))
    else if c.globals.Section? && c.globals.versionTags.Some? then VersionTags(TagsIn(c.globals.versionTags.value))
    else NoVersion
  }

  /** `states` are the checkpoint without its version, and then after each script of `log`. */
  ghost predicate Scripted<D>(effect: Effect<D>, c: Checkpoint<D>, log: seq<string>, states: seq<Checkpoint<D>>) {
    && |states| == |log| + 1
    && states[0] == Checkpoint(None, c.oldTags, c.globals, c.rest)
    && forall k :: 0 <= k < |log| ==> states[k + 1] == effect(log[k], states[k])
  }

  /** Nothing is to be applied, so the file is not touched. */
  ghost predicate LeftAlone<D>(r: Registered, c: Checkpoint<D>) {
    InfoOf(c).VersionTags? && Initial(r, InfoOf(c).tags).pending == {}
  }

  /** What a finished run may write: the scripts have been applied in the order of `log`, and
      the tags are listed in some order. */
  ghost predicate Rewritten<D>(r: Registered, start: State, effect: Effect<D>, c: Checkpoint<D>, log: seq<string>,
                               states: seq<Checkpoint<D>>, listing: seq<string>, out: Checkpoint<D>)
    requires start.pending <= r.nodes.Keys
  {
    && ValidLog(r, start, log)
    && Migrate(r, start).Done?
    && Enumerates(listing, Migrate(r, start).tags)
    && Scripted(effect, c, log, states)
    && states[|log|].globals.Section?
    && out == states[|log|].(globals := Section(Some(Join(listing, ' '))))
  }

  datatype RunError = Failed(error: FileError) | NoGlobals

  method RunScripts<D>(effect: Effect<D>, c: Checkpoint<D>, log: seq<string>)
    returns (c': Checkpoint<D>, ghost states: seq<Checkpoint<D>>)
    ensures Scripted(effect, c, log, states) && c' == states[|log|]
  {
    c' := c.(version := None);
    states := [c'];
    for k := 0 to |log|
      invariant |states| == k + 1 && c' == states[k] && states[0] == Checkpoint(None, c.oldTags, c.globals, c.rest)
      invariant forall j :: 0 <= j < k ==> states[j + 1] == effect(log[j], states[j])
    {
      c' := effect(log[k], c');
      states := states + [c'];
    }
  }

  /** The elements of a set, in whatever order it is iterated. */
  method ListTags(tags: set<string>) returns (listing: seq<string>)
    ensures Enumerates(listing, tags)
  {
    listing := [];
    var todo := tags;
    ghost var done: set<string> := {};
    while todo != {}
      invariant done + todo == tags && done !! todo && Enumerates(listing, done)
      decreases todo
    {
      var t :| t in todo;
      EnumeratesSnoc(listing, done, t);
      listing := listing + [t];
      todo := todo - {t};
      done := done + {t};
    }
  }

  /** `process_file`, from the text of the tags to their text.  Writing them needs the section
      `root.globals`, which the scripts may have made or removed. */
  method ProcessCheckpoint<D>(registry: Registry, scripts: seq<Script>, c: Checkpoint<D>, effect: Effect<D>,
                              ghost r: Registered)
    returns (out: Result<Option<Checkpoint<D>>, RunError>,
             ghost log: seq<string>, ghost states: seq<Checkpoint<D>>, ghost listing: seq<string>)
    requires registry.Valid() && registry.View() == r && registry.Versioned(scripts, IndexOf(scripts)) && r.WellFormed()
    ensures
      var start := Initial(r, TagsOf(scripts, InfoOf(c)));
      && (out.Err? && out.error.Failed? <==> !(KnownTo(scripts, InfoOf(c)) && Finishes(r, start)))
      && (out == Err(NoGlobals) ==>
            ValidLog(r, start, log) && Scripted(effect, c, log, states) && states[|log|].globals.NoSection?)
      && (out == Ok(None) <==> LeftAlone(r, c))
      && (out.Ok? && out.value.Some? ==> Rewritten(r, start, effect, c, log, states, listing, out.value.value))
  {
    log, states, listing := [], [], [];
    var change := ProcessWith(registry, scripts, InfoOf(c), r);
    match change {
      case Err(e) => out := Err(Failed(e));
      case Ok(Unchanged) => out := Ok(None);
      case Ok(Written(tags, applied)) =>
        log := applied;
        var c';
        c', states := RunScripts(effect, c, applied);
        var words := ListTags(tags);
        listing := words;
        if c'.globals.NoSection? {
          return Err(NoGlobals), log, states, listing;
        }
        out := Ok(Some(c'.(globals := Section(Some(Join(words, ' '))))));
    }
  }

  /** The command: load the scripts, then migrate a checkpoint.  What it writes is a migration
      in a registry that is what the scripts say. */
  method UpgradeCheckpoint<D>(scripts: seq<Script>, c: Checkpoint<D>, effect: Effect<D>)
    returns (out: Result<Result<Option<Checkpoint<D>>, RunError>, LoadError>,
             ghost r: Registered,
             ghost log: seq<string>, ghost states: seq<Checkpoint<D>>, ghost listing: seq<string>)
    ensures out.Ok? <==> Loadable(scripts)
    ensures out.Ok? ==>
      && Reflects(r, scripts, IndexOf(scripts)) && r.WellFormed()
      && var start, o := Initial(r, TagsOf(scripts, InfoOf(c))), out.value;
      && (o.Err? && o.error.Failed? <==> !(KnownTo(scripts, InfoOf(c)) && Finishes(r, start)))
      && (o == Err(NoGlobals) ==>
            ValidLog(r, start, log) && Scripted(effect, c, log, states) && states[|log|].globals.NoSection?)
      && (o == Ok(None) <==> LeftAlone(r, c))
      && (o.Ok? && o.value.Some? ==> Rewritten(r, start, effect, c, log, states, listing, o.value.value))
  {
    log, states, listing := [], [], [];
    var loaded;
    loaded, r := LoadRegistry(scripts);
    if loaded.Err? {
      return Err(loaded.error), r, log, states, listing;
    }
    var o;
    o, log, states, listing := ProcessCheckpoint(loaded.value, scripts, c, effect, r);
    out := Ok(o);
  }

  // ---- The second run ----

  lemma {:induction false} VersionTagsRegistered(scripts: seq<Script>, ix: Index, version: int)
    requires ix.Fits(scripts) && Contiguous(ix.versions.Keys, version + 1)
    requires forall v <- ix.versions :: VersionTagOf(scripts, ix, v) in ix.tags
    ensures VersionTagsOf(scripts, ix, version) <= ix.tags.Keys
    decreases version
  {
    if version >= 2 {
      VersionTagsRegistered(scripts, ix, version - 1);
    }
  }

  /** A checkpoint starts from words, or from registered tags. */
  lemma StartIsKnown<D>(scripts: seq<Script>, c: Checkpoint<D>, t: string)
    requires KnownTo(scripts, InfoOf(c)) && t in TagsOf(scripts, InfoOf(c))
    ensures IsWord(t) || t in IndexOf(scripts).tags
  {
    var ix := IndexOf(scripts);
    if c.version.Some? {
      forall v | v in ix.versions ensures VersionTagOf(scripts, ix, v) in ix.tags {
        StandsExactly(scripts, |scripts|, ix.versions[v]);
      }
      VersionTagsRegistered(scripts, ix, c.version.value);
    }
  }

  lemma StartsKnown<D>(scripts: seq<Script>, r: Registered, c: Checkpoint<D>, tags: set<string>)
    requires r.nodes.Keys == IndexOf(scripts).tags.Keys && KnownTo(scripts, InfoOf(c))
    requires tags == TagsOf(scripts, InfoOf(c))
    ensures forall t <- tags :: IsWord(t) || t in r.nodes
  {
    forall t | t in tags ensures IsWord(t) || t in r.nodes {
      StartIsKnown(scripts, c, t);
    }
  }

  lemma LeftAloneExactly<D>(r: Registered, c: Checkpoint<D>, text: string)
    requires c.globals == Section(Some(text))
    ensures LeftAlone(r, c) <==>
      && c.version.None?
      && Initial(r, TagsIn(if c.oldTags.Some? then c.oldTags.value else text)).pending == {}
  {
  }

  lemma AllWords(r: Registered, tags: set<string>, listing: seq<string>)
    requires r.WellFormed() && Enumerates(listing, Target(r, tags))
    requires (forall t <- tags :: IsWord(t) || t in r.nodes) && forall t <- r.tagSet :: IsWord(t)
    ensures forall t <- listing :: IsWord(t)
  {
    forall t | t in listing ensures IsWord(t) {
      assert t in Elements(listing);
    }
  }

  /** Tags written and read back leave nothing to apply exactly when no tag is registered in
      both directions and every tag to add is a word. */
  lemma ReadBackExactly(r: Registered, tags: set<string>, listing: seq<string>)
    requires r.WellFormed() && Migrate(r, Initial(r, tags)).Done?
    requires Enumerates(listing, Migrate(r, Initial(r, tags)).tags) && forall t <- tags :: IsWord(t) || t in r.nodes
    ensures Initial(r, TagsIn(Join(listing, ' '))).pending == {}
       <==> r.Unambiguous() && forall t <- r.tagSet :: IsWord(t)
  {
    var read := TagsIn(Join(listing, ' '));
    if !r.Unambiguous() {
      var t :| t in r.tagSet && t in r.untagSet;
      assert t in Initial(r, read).pending;
    } else if t :| t in r.tagSet && !IsWord(t) {
      assert t in Initial(r, read).pending;
    } else {
      FinalTags(r, tags);
      AllWords(r, tags, listing);
      WordsOfJoin(listing);
    }
  }

  /** A run that has rewritten a file leaves it alone the next time if and only if the scripts
      have left no version and, where they have left the deprecated tags, nothing is to be
      applied to those; otherwise no tag may be registered in both directions, and every tag
      to add must be a word. */
  lemma SecondRunExactly<D>(scripts: seq<Script>, r: Registered, effect: Effect<D>, c: Checkpoint<D>, log: seq<string>,
                            states: seq<Checkpoint<D>>, listing: seq<string>, out: Checkpoint<D>)
    requires Reflects(r, scripts, IndexOf(scripts)) && r.WellFormed() && KnownTo(scripts, InfoOf(c))
    requires Rewritten(r, Initial(r, TagsOf(scripts, InfoOf(c))), effect, c, log, states, listing, out)
    ensures LeftAlone(r, out) <==>
      && out.version.None?
      && match out.oldTags
         case Some(text) => Initial(r, TagsIn(text)).pending == {}
         case None => r.Unambiguous() && forall t <- r.tagSet :: IsWord(t)
  {
    var tags := TagsOf(scripts, InfoOf(c));
    StartsKnown(scripts, r, c, tags);
    ReadBackExactly(r, tags, listing);
    LeftAloneExactly(r, out, Join(listing, ' '));
  }

  /** Scripts that never touch the version leave none in what is written: that of the
      checkpoint has been removed before the first of them ran. */
  lemma {:induction false} VersionRemoved<D>(effect: Effect<D>, c: Checkpoint<D>, log: seq<string>,
                                             states: seq<Checkpoint<D>>, k: nat)
    requires Scripted(effect, c, log, states) && k <= |log|
    requires forall t, d :: effect(t, d).version == d.version
    ensures states[k].version == None
  {
    if k == 0 {
    } else {
      VersionRemoved(effect, c, log, states, k - 1);
    }
  }

  /** A file rewritten from a linear version, by scripts that touch neither the version nor the
      deprecated tags, of which there were none, is left alone by a second run exactly when the
      tags can be read back. */
  lemma LegacyOnlyOnce<D>(scripts: seq<Script>, r: Registered, effect: Effect<D>, c: Checkpoint<D>, log: seq<string>,
                          states: seq<Checkpoint<D>>, listing: seq<string>, out: Checkpoint<D>)
    requires Reflects(r, scripts, IndexOf(scripts)) && r.WellFormed() && KnownTo(scripts, InfoOf(c))
    requires Rewritten(r, Initial(r, TagsOf(scripts, InfoOf(c))), effect, c, log, states, listing, out)
    requires c.version.Some? && c.oldTags == None
    requires forall t, d :: effect(t, d).version == d.version && effect(t, d).oldTags == d.oldTags
    ensures out.version == None
    ensures LeftAlone(r, out) <==> r.Unambiguous() && forall t <- r.tagSet :: IsWord(t)
  {
    VersionRemoved(effect, c, log, states, |log|);
    NoOldTags(effect, c, log, states, |log|);
    SecondRunExactly(scripts, r, effect, c, log, states, listing, out);
  }

  lemma {:induction false} NoOldTags<D>(effect: Effect<D>, c: Checkpoint<D>, log: seq<string>,
                                        states: seq<Checkpoint<D>>, k: nat)
    requires Scripted(effect, c, log, states) && k <= |log| && c.oldTags == None
    requires forall t, d :: effect(t, d).oldTags == d.oldTags
    ensures states[k].oldTags == None
  {
    if k == 0 {
    } else {
      NoOldTags(effect, c, log, states, k - 1);
    }
  }

  /** A script that changes nothing. */
  function Keep<D>(t: string, c: Checkpoint<D>): Checkpoint<D> {
    c
  }

  lemma KeptByOne<D>(c: Checkpoint<D>, t: string)
    requires c.version == None
    ensures Scripted(Keep, c, [t], [c, c])
  {
    var keep: Effect<D> := Keep;
    assert keep(t, c) == c;
  }

  /** Every run on a checkpoint with the deprecated tags applies the same scripts again, unless
      one of them removes those tags: here a single script that does not. */
  lemma SecondRunRepeats<D>(t: string, rest: D)
    ensures
      var r := Registered({t}, {}, map[t := Node(Upgrade, [])]);
      var c := Checkpoint(None, Some(""), Section(None), rest);
      var out := Checkpoint(None, Some(""), Section(Some(t)), rest);
      && Rewritten(r, Initial(r, {}), Keep, c, [t], [c, c], [t], out)
      && InfoOf(c) == VersionTags({})
      && InfoOf(out) == VersionTags({})
      && !LeftAlone(r, out)
  {
    var r := Registered({t}, {}, map[t := Node(Upgrade, [])]);
    var s := Initial(r, {});
    assert s.pending == {t} && IsReady(r, t, {}) && Ready(r, s) == {t};
    assert Elements([t]) == {t} && Applied(r, {}, {t}) == {t};
    OneRoundLog(r, s, [t]);
    KeptByOne(Checkpoint(None, Some(""), Section(None), rest), t);
  }
}
