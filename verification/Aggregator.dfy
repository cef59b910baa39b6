/** Merging checkpoints into one (util/checkpoint_aggregator.py).

The memory images are concatenated page by page, so the physical addresses of a checkpoint
move up by the pages of the checkpoints before it.
 */
module Aggregator {
  import opened Arith
  import opened Results
  import opened SectionNames

  const PAGE := 4096

  /** An option of a section: one that `int` accepts, or any other text. */
  datatype Value = Num(n: nat) | Txt(s: string)

  datatype Section = Section(name: string, items: map<string, Value>)

  /** One checkpoint: its configuration and its memory image. */
  datatype Checkpoint<T> = Checkpoint(sections: seq<Section>, memory: seq<T>)

  const STORE := "system.physmem.store0"

  function Lookup(sections: seq<Section>, name: string, key: string): Option<nat> {
    if sections == [] then None
    else if sections[0].name == name then
      var items := sections[0].items;
      if key in items && items[key].Num? then Some(items[key].n) else None
    else Lookup(sections[1..], name, key)
  }

  function Pages<T>(c: Checkpoint<T>): nat {
    match Lookup(c.sections, "system", "pagePtr")
    case Some(n) => n
    case None => 0
  }

  /** `page_ptr` when checkpoint `i` is reached. */
  function PagesBefore<T>(cpts: seq<Checkpoint<T>>, i: nat): nat
    requires i <= |cpts|
  {
    if i == 0 then 0 else PagesBefore(cpts, i - 1) + Pages(cpts[i - 1])
  }

  // ---- Memory ----

  function Prefix<T>(s: seq<T>, k: nat): seq<T> {
    if k <= |s| then s[..k] else s
  }

  /** What is copied from a checkpoint: reads past the end of the file return nothing. */
  function Copied<T>(c: Checkpoint<T>): seq<T> {
    Prefix(c.memory, Pages(c) * PAGE)
  }

  function Image<T>(cpts: seq<Checkpoint<T>>, i: nat): seq<T>
    requires i <= |cpts|
  {
    if i == 0 then [] else Image(cpts, i - 1) + Copied(cpts[i - 1])
  }

  /** The page-copying loop. */
  method CopyPages<T>(memory: seq<T>, pages: nat, out: seq<T>) returns (more: seq<T>)
    ensures more == out + Prefix(memory, pages * PAGE)
  {
    more := out;
    var x, pos := 0, 0;
    while x < pages
      invariant x <= pages && pos == (if x * PAGE <= |memory| then x * PAGE else |memory|)
      invariant more == out + memory[..pos]
    {
      var next := if pos + PAGE <= |memory| then pos + PAGE else |memory|;
      assert out + memory[..pos] + memory[pos..next] == out + memory[..next] by {
        assert memory[..pos] + memory[pos..next] == memory[..next];
      }
      more := more + memory[pos..next];
      pos := next;
      x := x + 1;
    }
  }

  /** The address that `paddr` of checkpoint `i` becomes. */
  function Relocated<T>(cpts: seq<Checkpoint<T>>, i: nat, paddr: nat): nat
    requires i < |cpts|
  {
    paddr + PagesBefore(cpts, i) * PAGE
  }

  /** Everything copied from checkpoint `i` is found in `image` at its relocated address. */
  ghost predicate FaithfulAt<T>(cpts: seq<Checkpoint<T>>, image: seq<T>, i: nat)
    requires i < |cpts|
  {
    forall p :: 0 <= p < |Copied(cpts[i])| ==>
      && Relocated(cpts, i, p) < |image|
      && image[Relocated(cpts, i, p)] == cpts[i].memory[p]
  }

  ghost predicate Faithful<T>(cpts: seq<Checkpoint<T>>, image: seq<T>) {
    forall i :: 0 <= i < |cpts| ==> FaithfulAt(cpts, image, i)
  }

  /** The memory file holds all the pages the configuration promises. */
  predicate Full<T>(c: Checkpoint<T>) {
    Pages(c) * PAGE <= |c.memory|
  }

  /** No file that is too short comes before one with anything to copy. */
  predicate Aligned<T>(cpts: seq<Checkpoint<T>>) {
    forall i, k :: 0 <= i < k < |cpts| && Copied(cpts[k]) != [] ==> Full(cpts[i])
  }

  lemma {:induction false} ImageGrows<T>(cpts: seq<Checkpoint<T>>, i: nat, n: nat)
    requires i <= n <= |cpts|
    ensures Image(cpts, i) <= Image(cpts, n)
    decreases n
  {
    if i < n {
      ImageGrows(cpts, i, n - 1);
    }
  }

  lemma {:induction false} ImageLength<T>(cpts: seq<Checkpoint<T>>, i: nat)
    requires i <= |cpts|
    ensures |Image(cpts, i)| <= PagesBefore(cpts, i) * PAGE
    ensures |Image(cpts, i)| == PagesBefore(cpts, i) * PAGE <==> forall k :: 0 <= k < i ==> Full(cpts[k])
  {
    if i == 0 {
    } else {
      ImageLength(cpts, i - 1);
    }
  }

  /** Byte `p` copied from checkpoint `i` is at the end of what was there before. */
  lemma BlockAt<T>(cpts: seq<Checkpoint<T>>, i: nat, p: nat)
    requires i < |cpts| && p < |Copied(cpts[i])|
    ensures
      var at := |Image(cpts, i)| + p;
      at < |Image(cpts, |cpts|)| && Image(cpts, |cpts|)[at] == cpts[i].memory[p]
  {
    ImageGrows(cpts, i + 1, |cpts|);
    AppendedAt(Image(cpts, i), Copied(cpts[i]), Image(cpts, |cpts|), p);
  }

  lemma AppendedAt<T>(a: seq<T>, b: seq<T>, all: seq<T>, p: nat)
    requires a + b <= all && p < |b|
    ensures |a| + p < |all| && all[|a| + p] == b[p]
  {
    assert (a + b)[|a| + p] == b[p];
  }

  lemma AlignedStart<T>(cpts: seq<Checkpoint<T>>, i: nat)
    requires Aligned(cpts) && i < |cpts| && Copied(cpts[i]) != []
    ensures |Image(cpts, i)| == PagesBefore(cpts, i) * PAGE
  {
    ImageLength(cpts, i);
  }

  lemma AlignedAt<T>(cpts: seq<Checkpoint<T>>, image: seq<T>, i: nat, p: nat)
    requires Aligned(cpts) && image == Image(cpts, |cpts|)
    requires i < |cpts| && p < |Copied(cpts[i])|
    ensures Relocated(cpts, i, p) < |image| && image[Relocated(cpts, i, p)] == cpts[i].memory[p]
  {
    AlignedStart(cpts, i);
    BlockAt(cpts, i, p);
  }

  /** Merging preserves what addresses point at, for memories of any contents. */
  lemma AlignedIsFaithful<T>(cpts: seq<Checkpoint<T>>)
    requires Aligned(cpts)
    ensures Faithful(cpts, Image(cpts, |cpts|))
  {
    var image := Image(cpts, |cpts|);
    forall i | 0 <= i < |cpts| ensures FaithfulAt(cpts, image, i) {
      forall p | 0 <= p < |Copied(cpts[i])|
        ensures Relocated(cpts, i, p) < |image| && image[Relocated(cpts, i, p)] == cpts[i].memory[p]
      {
        AlignedAt(cpts, image, i, p);
      }
    }
  }

  /** Addresses of different checkpoints never coincide after relocation. */
  lemma RelocatedDisjoint<T>(cpts: seq<Checkpoint<T>>, i: nat, j: nat, p: nat, q: nat)
    requires i < |cpts| && j < |cpts| && i != j
    requires p < Pages(cpts[i]) * PAGE && q < Pages(cpts[j]) * PAGE
    ensures Relocated(cpts, i, p) != Relocated(cpts, j, q)
  {
    if i < j {
      PagesGrow(cpts, i + 1, j);
    } else {
      PagesGrow(cpts, j + 1, i);
    }
  }

  lemma {:induction false} PagesGrow<T>(cpts: seq<Checkpoint<T>>, i: nat, j: nat)
    requires i <= j <= |cpts|
    ensures PagesBefore(cpts, i) <= PagesBefore(cpts, j)
    decreases j
  {
    if i < j {
      PagesGrow(cpts, i, j - 1);
    }
  }

  // ---- Short memory files ----

  /** Every cell says which checkpoint and which address it comes from. */
  ghost predicate Labelled(cpts: seq<Checkpoint<(nat, nat)>>) {
    forall i, p :: 0 <= i < |cpts| && 0 <= p < |cpts[i].memory| ==> cpts[i].memory[p] == (i, p)
  }

  lemma {:induction false} CellOrigin<T>(cpts: seq<Checkpoint<T>>, n: nat, x: nat) returns (j: nat, q: nat)
    requires n <= |cpts| && x < |Image(cpts, n)|
    ensures j < n && q < |Copied(cpts[j])| && x == |Image(cpts, j)| + q
    ensures Image(cpts, n)[x] == cpts[j].memory[q]
  {
    if x < |Image(cpts, n - 1)| {
      j, q := CellOrigin(cpts, n - 1, x);
    } else {
      j, q := n - 1, x - |Image(cpts, n - 1)|;
    }
  }

  lemma ShortStart<T>(cpts: seq<Checkpoint<T>>, i: nat, k: nat)
    requires i < k <= |cpts| && !Full(cpts[i])
    ensures |Image(cpts, k)| < PagesBefore(cpts, k) * PAGE
  {
    ImageLength(cpts, k);
  }

  lemma LabelFound(cpts: seq<Checkpoint<(nat, nat)>>, image: seq<(nat, nat)>, k: nat, at: nat)
    requires Labelled(cpts) && image == Image(cpts, |cpts|) && k < |cpts|
    requires at < |image| && image[at] == (k, 0)
    ensures at == |Image(cpts, k)|
  {
    var j, q := CellOrigin(cpts, |cpts|, at);
    assert cpts[j].memory[q] == (j, q);
  }

  lemma NotFoundPast(cpts: seq<Checkpoint<(nat, nat)>>, image: seq<(nat, nat)>, k: nat, at: nat)
    requires Labelled(cpts) && image == Image(cpts, |cpts|) && k < |cpts| && |Image(cpts, k)| < at
    ensures at < |image| ==> image[at] != (k, 0)
  {
    if at < |image| && image[at] == (k, 0) {
      LabelFound(cpts, image, k, at);
    }
  }

  lemma ShortFileMisplaces(cpts: seq<Checkpoint<(nat, nat)>>, i: nat, k: nat)
    requires Labelled(cpts) && i < k < |cpts| && Copied(cpts[k]) != [] && !Full(cpts[i])
    ensures !FaithfulAt(cpts, Image(cpts, |cpts|), k)
  {
    ShortStart(cpts, i, k);
    NotFoundPast(cpts, Image(cpts, |cpts|), k, Relocated(cpts, k, 0));
    assert cpts[k].memory[0] == (k, 0);
  }

  /** When cells are labelled with their origin, merging keeps every address pointing at
      its own cell if and only if no file that is too short precedes one with something
      to copy. */
  lemma RelocationExactly(cpts: seq<Checkpoint<(nat, nat)>>)
    requires Labelled(cpts)
    ensures Faithful(cpts, Image(cpts, |cpts|)) <==> Aligned(cpts)
  {
    if Aligned(cpts) {
      AlignedIsFaithful(cpts);
    } else {
      var i, k :| 0 <= i < k < |cpts| && Copied(cpts[k]) != [] && !Full(cpts[i]);
      ShortFileMisplaces(cpts, i, k);
    }
  }

  // ---- Padding ----

  /** The pages once the image has been padded to the requested size. */
  function PaddedPages(pages: nat, memorySize: nat): (padded: nat)
    ensures padded >= pages && padded * PAGE >= memorySize
    ensures padded > pages ==> (padded - 1) * PAGE < memorySize
    decreases memorySize - pages * PAGE
  {
    if pages * PAGE < memorySize then PaddedPages(pages + 1, memorySize) else pages
  }

  function Fill<T>(pad: T, n: nat): seq<T> {
    seq(n, _ => pad)
  }

  /** The padding loop: whole pages of the padding character. */
  method Pad<T>(image: seq<T>, pages: nat, memorySize: nat, pad: T) returns (padded: seq<T>, total: nat)
    ensures total == PaddedPages(pages, memorySize)
    ensures padded == image + Fill(pad, (total - pages) * PAGE)
  {
    padded, total := image, pages;
    var fileSize := pages * PAGE;
    while fileSize < memorySize
      invariant total >= pages && fileSize == total * PAGE
      invariant PaddedPages(total, memorySize) == PaddedPages(pages, memorySize)
      invariant padded == image + Fill(pad, (total - pages) * PAGE)
      decreases memorySize - fileSize
    {
      assert Fill(pad, (total - pages) * PAGE) + Fill(pad, PAGE) == Fill(pad, (total + 1 - pages) * PAGE);
      padded := padded + Fill(pad, PAGE);
      fileSize := fileSize + PAGE;
      total := total + 1;
    }
  }

  /** The image is as large as the range size that is recorded for it, unless some memory
      file was short. */
  lemma RangeIsImage<T>(cpts: seq<Checkpoint<T>>, memorySize: nat, pad: T)
    ensures
      var pages := PagesBefore(cpts, |cpts|);
      var total := PaddedPages(pages, memorySize);
      |Image(cpts, |cpts|) + Fill(pad, (total - pages) * PAGE)| == total * PAGE
      <==> forall k :: 0 <= k < |cpts| ==> Full(cpts[k])
  {
    ImageLength(cpts, |cpts|);
  }

  // ---- Configuration ----

  const FDMAP_HEAD := "workload"
  const FDMAP_TAIL := "FdMap256"

  /** `re.compile("workload.FdMap256$").search(name)`. */
  predicate IsFdMap(name: string) {
    |name| >= 17
    && name[|name| - 17..|name| - 9] == FDMAP_HEAD
    && name[|name| - 9] != '\n'
    && name[|name| - 8..] == FDMAP_TAIL
  }

  /** The numbers that merging reads from a section are there. */
  predicate Readable(s: Section) {
    if HasCpu(s.name) then "paddr" in s.items ==> s.items["paddr"].Num?
    else s.name == "Globals" ==> "curTick" in s.items && s.items["curTick"].Num?
  }

  /** The options of a cpu section of checkpoint `i`, moved up by `base` pages. */
  function MovedItems(s: Section, i: nat, base: nat): map<string, Value>
    requires HasCpu(s.name) && Readable(s)
  {
    (map k | k in s.items :: if k == "paddr" then Num(s.items[k].n + base * PAGE) else s.items[k])
    + if IsFdMap(s.name) then map["M5_pid" := Num(i)] else map[]
  }

  /** What a section contributes to the merged configuration. */
  function MergeOne(s: Section, i: nat, n: nat, base: nat): seq<Section>
    requires i < n && Readable(s)
  {
    if HasCpu(s.name) then [Section(Rename(s.name, Number(i, n)), MovedItems(s, i, base))]
    else if s.name == "system" || s.name == "Globals" then []
    else if i == n - 1 then [s]
    else []
  }

  ghost predicate AllReadable(sections: seq<Section>) {
    forall k :: 0 <= k < |sections| ==> Readable(sections[k])
  }

  function MergeSections(sections: seq<Section>, i: nat, n: nat, base: nat): seq<Section>
    requires i < n && AllReadable(sections)
  {
    if sections == [] then []
    else MergeSections(sections[..|sections| - 1], i, n, base) + MergeOne(sections[|sections| - 1], i, n, base)
  }

  /** The largest `curTick` seen. */
  function MaxTick(sections: seq<Section>, tick: nat): (m: nat)
    requires AllReadable(sections)
    ensures m >= tick
  {
    if sections == [] then tick
    else LaterTick(sections[|sections| - 1], MaxTick(sections[..|sections| - 1], tick))
  }

  /** The tick after one more section. */
  function LaterTick(s: Section, tick: nat): (m: nat)
    requires Readable(s)
    ensures m >= tick
  {
    if !HasCpu(s.name) && s.name == "Globals" && s.items["curTick"].n > tick then s.items["curTick"].n else tick
  }

  datatype MergeError = NoCheckpoints | BadOption(section: string) | NoPagePtr | NoStore

  /** One section of the loop: what it adds, and the largest tick so far. */
  method MergeSection(s: Section, i: nat, n: nat, base: nat, tick: nat) returns (one: seq<Section>, maxTick: nat)
    requires i < n && Readable(s)
    ensures one == MergeOne(s, i, n, base) && maxTick == LaterTick(s, tick)
  {
    one, maxTick := [], tick;
    if HasCpu(s.name) {
      one := [Section(Rename(s.name, Number(i, n)), MovedItems(s, i, base))];
    } else if s.name == "system" {
    } else if s.name == "Globals" {
      if s.items["curTick"].n > maxTick {
        maxTick := s.items["curTick"].n;
      }
    } else if i == n - 1 {
      one := [s];
    }
  }

  method MergeConfig(sections: seq<Section>, i: nat, n: nat, base: nat, tick: nat)
    returns (r: Result<seq<Section>, MergeError>, maxTick: nat)
    requires i < n
    ensures r.Ok? <==> AllReadable(sections)
    ensures r.Ok? ==> r.value == MergeSections(sections, i, n, base) && maxTick == MaxTick(sections, tick)
  {
    var merged: seq<Section> := [];
    maxTick := tick;
    for k := 0 to |sections|
      invariant AllReadable(sections[..k])
      invariant merged == MergeSections(sections[..k], i, n, base) && maxTick == MaxTick(sections[..k], tick)
    {
      var s := sections[k];
      assert sections[..k + 1][..k] == sections[..k];
      if !Readable(s) {
        return Err(BadOption(s.name)), maxTick;
      }
      assert AllReadable(sections[..k + 1]);
      var one;
      one, maxTick := MergeSection(s, i, n, base, maxTick);
      merged := merged + one;
    }
    assert sections[..|sections|] == sections;
    r := Ok(merged);
  }

  // ---- The whole merge ----

  predicate HasSection(sections: seq<Section>, name: string) {
    exists k :: 0 <= k < |sections| && sections[k].name == name
  }

  /** What merging needs of its input. */
  ghost predicate UsableAt<T>(cpts: seq<Checkpoint<T>>, i: nat)
    requires i < |cpts|
  {
    AllReadable(cpts[i].sections) && Lookup(cpts[i].sections, "system", "pagePtr").Some?
  }

  ghost predicate UsableTo<T>(cpts: seq<Checkpoint<T>>, n: nat)
    requires n <= |cpts|
  {
    n > 0 ==> UsableTo(cpts, n - 1) && UsableAt(cpts, n - 1)
  }

  lemma {:induction false} UsableEach<T>(cpts: seq<Checkpoint<T>>, n: nat, i: nat)
    requires i < n <= |cpts| && UsableTo(cpts, n)
    ensures UsableAt(cpts, i)
  {
    if i < n - 1 {
      UsableEach(cpts, n - 1, i);
    }
  }

  ghost predicate Mergeable<T>(cpts: seq<Checkpoint<T>>) {
    && cpts != []
    && UsableTo(cpts, |cpts|)
    && HasSection(cpts[|cpts| - 1].sections, STORE)
  }

  /** The sections written for the first `i` checkpoints. */
  ghost function Config<T>(cpts: seq<Checkpoint<T>>, i: nat): seq<Section>
    requires i <= |cpts| && UsableTo(cpts, i)
  {
    if i == 0 then []
    else
      Config(cpts, i - 1) + MergeSections(cpts[i - 1].sections, i - 1, |cpts|, PagesBefore(cpts, i - 1))
  }

  ghost function Ticks<T>(cpts: seq<Checkpoint<T>>, i: nat): nat
    requires i <= |cpts| && UsableTo(cpts, i)
  {
    if i == 0 then 0
    else
      MaxTick(cpts[i - 1].sections, Ticks(cpts, i - 1))
  }

  function SetRange(sections: seq<Section>, size: nat): seq<Section> {
    seq(|sections|, (k: nat) requires k < |sections| =>
      if sections[k].name == STORE then Section(STORE, sections[k].items["range_size" := Num(size)]) else sections[k])
  }

  /** The two sections added at the end. */
  function Trailer(pages: nat, n: nat, tick: nat): seq<Section> {
    [Section("system", map["pagePtr" := Num(pages), "nextPID" := Num(n)]),
     Section("Globals", map["curTick" := Num(tick)])]
  }

  datatype Output<T> = Output(config: seq<Section>, image: seq<T>)

  ghost function Merge<T>(cpts: seq<Checkpoint<T>>, memorySize: nat, pad: T): Output<T>
    requires Mergeable(cpts)
  {
    var n := |cpts|;
    var pages := PagesBefore(cpts, n);
    var total := PaddedPages(pages, memorySize);
    Output(SetRange(Config(cpts, n), total * PAGE) + Trailer(pages, n, Ticks(cpts, n)),
           Image(cpts, n) + Fill(pad, (total - pages) * PAGE))
  }

  lemma {:induction false} CpuHasC(s: string)
    requires HasCpu(s)
    ensures 'c' in s
  {
    if !StartsCpu(s) {
      CpuHasC(s[1..]);
    }
  }

  lemma StoreHasNoC()
    ensures 'c' !in STORE && STORE != "system" && STORE != "Globals"
  {
    assert |STORE| == 21;
  }

  lemma StoreIsPlain()
    ensures Plain(STORE)
  {
    StoreHasNoC();
    if HasCpu(STORE) {
      CpuHasC(STORE);
    }
  }

  /** A section that is copied from the last checkpoint. */
  predicate Plain(name: string) {
    !HasCpu(name) && name != "system" && name != "Globals"
  }

  lemma OneKept(s: Section, i: nat, n: nat, base: nat, m: Section)
    requires i < n && Readable(s) && Plain(m.name)
    ensures m in MergeOne(s, i, n, base) <==> i == n - 1 && m == s
  {
    if HasCpu(s.name) {
      RenameKeepsCpu(s.name, Number(i, n));
    }
  }

  /** Of the plain sections those of the last checkpoint are all kept as they are, and no
      others. */
  lemma {:induction false} PlainKept(sections: seq<Section>, i: nat, n: nat, base: nat, m: Section)
    requires i < n && AllReadable(sections) && Plain(m.name)
    ensures m in MergeSections(sections, i, n, base) <==> i == n - 1 && m in sections
  {
    if sections == [] {
    } else {
      var init, s := sections[..|sections| - 1], sections[|sections| - 1];
      PlainKept(init, i, n, base, m);
      OneKept(s, i, n, base, m);
      assert m in sections <==> m in init || m == s;
    }
  }

  lemma NameKept(sections: seq<Section>, n: nat, base: nat, name: string)
    requires n > 0 && AllReadable(sections) && Plain(name)
    ensures HasSection(MergeSections(sections, n - 1, n, base), name) <==> HasSection(sections, name)
  {
    var merged := MergeSections(sections, n - 1, n, base);
    if k :| 0 <= k < |merged| && merged[k].name == name {
      PlainKept(sections, n - 1, n, base, merged[k]);
      var j :| 0 <= j < |sections| && sections[j] == merged[k];
    }
    if k :| 0 <= k < |sections| && sections[k].name == name {
      PlainKept(sections, n - 1, n, base, sections[k]);
      var j :| 0 <= j < |merged| && merged[j] == sections[k];
    }
  }

  /** One checkpoint of the loop: its sections, the tick so far and its number of pages. */
  method MergeNext<T>(cpts: seq<Checkpoint<T>>, i: nat, pagePtr: nat, tick: nat)
    returns (r: Result<nat, MergeError>, merged: seq<Section>, maxTick: nat)
    requires i < |cpts| && pagePtr == PagesBefore(cpts, i)
    ensures r.Ok? <==> UsableAt(cpts, i)
    ensures r.Ok? ==>
      && r.value == Pages(cpts[i])
      && merged == MergeSections(cpts[i].sections, i, |cpts|, pagePtr)
      && maxTick == MaxTick(cpts[i].sections, tick)
  {
    var c;
    c, maxTick := MergeConfig(cpts[i].sections, i, |cpts|, pagePtr, tick);
    if c.Err? {
      return Err(c.error), [], maxTick;
    }
    var pages := Lookup(cpts[i].sections, "system", "pagePtr");
    if pages.None? {
      return Err(NoPagePtr), [], maxTick;
    }
    return Ok(pages.value), c.value, maxTick;
  }

  lemma OneUnusable<T>(cpts: seq<Checkpoint<T>>, i: nat)
    requires i < |cpts| && !UsableAt(cpts, i)
    ensures !UsableTo(cpts, |cpts|)
  {
    if UsableTo(cpts, |cpts|) {
      UsableEach(cpts, |cpts|, i);
    }
  }

  /** The state of the loop after `i` checkpoints; `last` is the configuration of the last one. */
  ghost predicate MergedTo<T>(cpts: seq<Checkpoint<T>>, i: nat, config: seq<Section>, last: seq<Section>,
                              image: seq<T>, pagePtr: nat, tick: nat)
    requires i <= |cpts|
  {
    && UsableTo(cpts, i)
    && config == Config(cpts, i)
    && tick == Ticks(cpts, i)
    && image == Image(cpts, i)
    && pagePtr == PagesBefore(cpts, i)
    && (i > 0 ==> last == MergeSections(cpts[i - 1].sections, i - 1, |cpts|, PagesBefore(cpts, i - 1)))
  }

  lemma MergedNext<T>(cpts: seq<Checkpoint<T>>, i: nat, config: seq<Section>, last: seq<Section>, image: seq<T>,
                      pagePtr: nat, tick: nat, merged: seq<Section>, maxTick: nat)
    requires i < |cpts| && MergedTo(cpts, i, config, last, image, pagePtr, tick) && UsableAt(cpts, i)
    requires merged == MergeSections(cpts[i].sections, i, |cpts|, pagePtr) && maxTick == MaxTick(cpts[i].sections, tick)
    ensures MergedTo(cpts, i + 1, config + merged, merged, image + Copied(cpts[i]), pagePtr + Pages(cpts[i]), maxTick)
  {
  }

  /** The loop over checkpoints. */
  method MergeAll<T>(cpts: seq<Checkpoint<T>>)
    returns (r: Result<seq<Section>, MergeError>, last: seq<Section>, image: seq<T>, pagePtr: nat, tick: nat)
    ensures r.Ok? <==> UsableTo(cpts, |cpts|)
    ensures r.Ok? ==> MergedTo(cpts, |cpts|, r.value, last, image, pagePtr, tick)
  {
    var config: seq<Section> := [];
    last, image, pagePtr, tick := [], [], 0, 0;
    for i := 0 to |cpts|
      invariant MergedTo(cpts, i, config, last, image, pagePtr, tick)
    {
      var pages, merged, maxTick := MergeNext(cpts, i, pagePtr, tick);
      if pages.Err? {
        OneUnusable(cpts, i);
        r := Err(pages.error);
        return;
      }
      MergedNext(cpts, i, config, last, image, pagePtr, tick, merged, maxTick);
      image := CopyPages(cpts[i].memory, pages.value, image);
      config, last, pagePtr, tick := config + merged, merged, pagePtr + pages.value, maxTick;
    }
    r := Ok(config);
  }

  lemma LastHasStore<T>(cpts: seq<Checkpoint<T>>, last: seq<Section>)
    requires cpts != [] && UsableTo(cpts, |cpts|)
    requires last == MergeSections(cpts[|cpts| - 1].sections, |cpts| - 1, |cpts|, PagesBefore(cpts, |cpts| - 1))
    ensures HasSection(last, STORE) <==> HasSection(cpts[|cpts| - 1].sections, STORE)
  {
    StoreIsPlain();
    NameKept(cpts[|cpts| - 1].sections, |cpts|, PagesBefore(cpts, |cpts| - 1), STORE);
  }

  /** `aggregate`: it succeeds exactly on mergeable checkpoints. */
  method Aggregate<T>(cpts: seq<Checkpoint<T>>, memorySize: nat, pad: T) returns (r: Result<Output<T>, MergeError>)
    ensures r.Ok? <==> Mergeable(cpts)
    ensures r.Ok? ==> r.value == Merge(cpts, memorySize, pad)
  {
    if cpts == [] {
      return Err(NoCheckpoints);
    }
    var config, last, image, pagePtr, tick := MergeAll(cpts);
    if config.Err? {
      return Err(config.error);
    }
    var padded, total := Pad(image, pagePtr, memorySize, pad);
    LastHasStore(cpts, last);
    if !HasSection(last, STORE) {
      return Err(NoStore);
    }
    r := Ok(Output(SetRange(config.value, total * PAGE) + Trailer(pagePtr, |cpts|, tick), padded));
  }

  // ---- Names are unique ----

  ghost predicate DistinctNames(sections: seq<Section>) {
    forall i, j :: 0 <= i < j < |sections| ==> sections[i].name != sections[j].name
  }

  /** `m` is what section `s` of checkpoint `i` became. */
  ghost predicate ComesFrom(m: Section, s: Section, i: nat, n: nat, base: nat)
    requires i < n
  {
    Readable(s) && MergeOne(s, i, n, base) == [m]
  }

  /** A name in the merged configuration determines the checkpoint and the section. */
  lemma NameDeterminesOrigin(m: Section, s: Section, i: nat, a: nat, m': Section, t: Section, j: nat, b: nat, n: nat)
    requires i < n && j < n && ComesFrom(m, s, i, n, a) && ComesFrom(m', t, j, n, b) && m.name == m'.name
    ensures i == j && s.name == t.name
  {
    if HasCpu(s.name) {
      RenameKeepsCpu(s.name, Number(i, n));
    }
    if HasCpu(t.name) {
      RenameKeepsCpu(t.name, Number(j, n));
    }
    if HasCpu(s.name) && HasCpu(t.name) {
      RenameInjective(i, s.name, j, t.name, n);
    }
  }

  lemma {:induction false} SectionOrigin(sections: seq<Section>, i: nat, n: nat, base: nat, x: nat) returns (k: nat)
    requires i < n && AllReadable(sections) && x < |MergeSections(sections, i, n, base)|
    ensures k < |sections| && ComesFrom(MergeSections(sections, i, n, base)[x], sections[k], i, n, base)
  {
    var last := |sections| - 1;
    var before := MergeSections(sections[..last], i, n, base);
    if x < |before| {
      k := SectionOrigin(sections[..last], i, n, base, x);
    } else {
      k := last;
    }
  }

  lemma {:induction false} MergeKeepsDistinct(sections: seq<Section>, i: nat, n: nat, base: nat)
    requires i < n && AllReadable(sections) && DistinctNames(sections)
    ensures DistinctNames(MergeSections(sections, i, n, base))
  {
    if sections == [] {
    } else {
      var last := |sections| - 1;
      var before, one := MergeSections(sections[..last], i, n, base), MergeOne(sections[last], i, n, base);
      MergeKeepsDistinct(sections[..last], i, n, base);
      if one != [] {
        forall x | 0 <= x < |before| ensures before[x].name != one[0].name {
          var k := SectionOrigin(sections[..last], i, n, base, x);
          if before[x].name == one[0].name {
            NameDeterminesOrigin(before[x], sections[k], i, base, one[0], sections[last], i, base, n);
          }
        }
        DistinctSnoc(before, one[0]);
      }
    }
  }

  lemma DistinctSnoc(a: seq<Section>, s: Section)
    requires DistinctNames(a) && forall x :: 0 <= x < |a| ==> a[x].name != s.name
    ensures DistinctNames(a + [s])
  {
  }

  lemma {:induction false} ConfigOrigin<T>(cpts: seq<Checkpoint<T>>, i: nat, x: nat) returns (j: nat, s: Section)
    requires i <= |cpts| && UsableTo(cpts, i) && x < |Config(cpts, i)|
    ensures j < i && ComesFrom(Config(cpts, i)[x], s, j, |cpts|, PagesBefore(cpts, j))
  {
    var before := Config(cpts, i - 1);
    if x < |before| {
      j, s := ConfigOrigin(cpts, i - 1, x);
    } else {
      var k := SectionOrigin(cpts[i - 1].sections, i - 1, |cpts|, PagesBefore(cpts, i - 1), x - |before|);
      j, s := i - 1, cpts[i - 1].sections[k];
    }
  }

  lemma DistinctConcat(a: seq<Section>, b: seq<Section>)
    requires DistinctNames(a) && DistinctNames(b)
    requires forall x, y :: 0 <= x < |a| && 0 <= y < |b| ==> a[x].name != b[y].name
    ensures DistinctNames(a + b)
  {
  }

  lemma {:induction false} ConfigDistinct<T>(cpts: seq<Checkpoint<T>>, i: nat)
    requires i <= |cpts| && UsableTo(cpts, i) && forall k :: 0 <= k < |cpts| ==> DistinctNames(cpts[k].sections)
    ensures DistinctNames(Config(cpts, i))
  {
    if i == 0 {
    } else {
      ConfigDistinct(cpts, i - 1);
      var n, base, secs := |cpts|, PagesBefore(cpts, i - 1), cpts[i - 1].sections;
      var a, b := Config(cpts, i - 1), MergeSections(secs, i - 1, n, base);
      MergeKeepsDistinct(secs, i - 1, n, base);
      forall x, y | 0 <= x < |a| && 0 <= y < |b| ensures a[x].name != b[y].name {
        var j, s := ConfigOrigin(cpts, i - 1, x);
        var k := SectionOrigin(secs, i - 1, n, base, y);
        if a[x].name == b[y].name {
          NameDeterminesOrigin(a[x], s, j, PagesBefore(cpts, j), b[y], secs[k], i - 1, base, n);
        }
      }
      DistinctConcat(a, b);
    }
  }

  lemma TrailerHasNoC()
    ensures 'c' !in "system" && 'c' !in "Globals"
  {
  }

  lemma OriginNotTrailer(m: Section, s: Section, i: nat, n: nat, base: nat)
    requires i < n && ComesFrom(m, s, i, n, base)
    ensures m.name != "system" && m.name != "Globals"
  {
    if HasCpu(s.name) {
      RenameKeepsCpu(s.name, Number(i, n));
      CpuHasC(m.name);
      TrailerHasNoC();
    }
  }

  predicate NoTrailerNames(sections: seq<Section>) {
    forall x :: 0 <= x < |sections| ==> sections[x].name != "system" && sections[x].name != "Globals"
  }

  lemma ConfigNotTrailer<T>(cpts: seq<Checkpoint<T>>)
    requires UsableTo(cpts, |cpts|)
    ensures NoTrailerNames(Config(cpts, |cpts|))
  {
    var config := Config(cpts, |cpts|);
    forall x | 0 <= x < |config| ensures config[x].name != "system" && config[x].name != "Globals" {
      var j, s := ConfigOrigin(cpts, |cpts|, x);
      OriginNotTrailer(config[x], s, j, |cpts|, PagesBefore(cpts, j));
    }
  }

  lemma RangedDistinct(sections: seq<Section>, size: nat)
    requires DistinctNames(sections) && NoTrailerNames(sections)
    ensures DistinctNames(SetRange(sections, size)) && NoTrailerNames(SetRange(sections, size))
  {
    assert forall x :: 0 <= x < |sections| ==> SetRange(sections, size)[x].name == sections[x].name;
  }

  lemma WithTrailer(body: seq<Section>, pages: nat, n: nat, tick: nat)
    requires DistinctNames(body) && NoTrailerNames(body)
    ensures DistinctNames(body + Trailer(pages, n, tick))
  {
    DistinctConcat(body, Trailer(pages, n, tick));
  }

  /** No two sections of the merged configuration have the same name. */
  lemma MergedNamesDistinct<T>(cpts: seq<Checkpoint<T>>, memorySize: nat, pad: T)
    requires Mergeable(cpts) && forall k :: 0 <= k < |cpts| ==> DistinctNames(cpts[k].sections)
    ensures DistinctNames(Merge(cpts, memorySize, pad).config)
  {
    var n := |cpts|;
    var pages := PagesBefore(cpts, n);
    var config, size := Config(cpts, n), PaddedPages(pages, memorySize) * PAGE;
    ConfigDistinct(cpts, n);
    ConfigNotTrailer(cpts);
    RangedDistinct(config, size);
    WithTrailer(SetRange(config, size), pages, n, Ticks(cpts, n));
  }

  // ---- Addresses in the merged configuration ----

  lemma {:induction false} OneMerged(sections: seq<Section>, i: nat, n: nat, base: nat, k: nat) returns (x: nat)
    requires i < n && AllReadable(sections) && k < |sections| && HasCpu(sections[k].name)
    ensures x < |MergeSections(sections, i, n, base)|
    ensures [MergeSections(sections, i, n, base)[x]] == MergeOne(sections[k], i, n, base)
  {
    var last := |sections| - 1;
    if k == last {
      x := |MergeSections(sections[..last], i, n, base)|;
    } else {
      x := OneMerged(sections[..last], i, n, base, k);
    }
  }

  lemma {:induction false} ConfigContains<T>(cpts: seq<Checkpoint<T>>, n: nat, i: nat, k: nat) returns (x: nat)
    requires i < n <= |cpts| && UsableTo(cpts, n)
    requires k < |cpts[i].sections| && HasCpu(cpts[i].sections[k].name)
    ensures x < |Config(cpts, n)| && ComesFrom(Config(cpts, n)[x], cpts[i].sections[k], i, |cpts|, PagesBefore(cpts, i))
  {
    if i == n - 1 {
      var y := OneMerged(cpts[i].sections, i, |cpts|, PagesBefore(cpts, i), k);
      x := |Config(cpts, i)| + y;
    } else {
      x := ConfigContains(cpts, n - 1, i, k);
    }
  }

  lemma MovedAddress(s: Section, i: nat, base: nat)
    requires HasCpu(s.name) && "paddr" in s.items && s.items["paddr"].Num?
    ensures var items := MovedItems(s, i, base);
      "paddr" in items && items["paddr"] == Num(s.items["paddr"].n + base * PAGE)
  {
    assert "paddr"[0] != "M5_pid"[0];
  }

  lemma AddressInConfig<T>(cpts: seq<Checkpoint<T>>, i: nat, k: nat, s: Section) returns (x: nat, m: Section)
    requires UsableTo(cpts, |cpts|) && i < |cpts| && k < |cpts[i].sections| && s == cpts[i].sections[k]
    requires HasCpu(s.name) && "paddr" in s.items && s.items["paddr"].Num?
    ensures x < |Config(cpts, |cpts|)| && Config(cpts, |cpts|)[x] == m
    ensures m.name == Rename(s.name, Number(i, |cpts|)) && m.name != STORE
    ensures "paddr" in m.items && m.items["paddr"] == Num(Relocated(cpts, i, s.items["paddr"].n))
  {
    x := ConfigContains(cpts, |cpts|, i, k);
    m := Config(cpts, |cpts|)[x];
    RenamedIsNotStore(s.name, i, |cpts|);
    MovedAddress(s, i, PagesBefore(cpts, i));
  }

  lemma MergeKeeps<T>(cpts: seq<Checkpoint<T>>, memorySize: nat, pad: T, x: nat)
    requires Mergeable(cpts) && x < |Config(cpts, |cpts|)| && Config(cpts, |cpts|)[x].name != STORE
    ensures var out := Merge(cpts, memorySize, pad);
      && x < |out.config|
      && out.config[x] == Config(cpts, |cpts|)[x]
      && Image(cpts, |cpts|) <= out.image
  {
  }

  /** The physical address in a cpu section of a checkpoint is rewritten, under the
      section's new name, to one where the merged memory holds the same byte. */
  lemma MergedAddressKeepsMeaning<T>(cpts: seq<Checkpoint<T>>, out: Output<T>, memorySize: nat, pad: T,
                                     i: nat, k: nat, s: Section, a: nat)
    returns (x: nat, m: Section, b: nat)
    requires Mergeable(cpts) && Aligned(cpts) && out == Merge(cpts, memorySize, pad)
    requires i < |cpts| && k < |cpts[i].sections| && s == cpts[i].sections[k]
    requires HasCpu(s.name) && "paddr" in s.items && s.items["paddr"] == Num(a) && a < |Copied(cpts[i])|
    ensures x < |out.config| && out.config[x] == m && m.name == Rename(s.name, Number(i, |cpts|))
    ensures "paddr" in m.items && m.items["paddr"] == Num(b)
    ensures b < |out.image| && out.image[b] == cpts[i].memory[a]
  {
    x, m := AddressInConfig(cpts, i, k, s);
    b := Relocated(cpts, i, a);
    MergeKeeps(cpts, memorySize, pad, x);
    AlignedAt(cpts, Image(cpts, |cpts|), i, a);
  }

  lemma RenamedIsNotStore(name: string, i: nat, n: nat)
    requires i < n && HasCpu(name)
    ensures Rename(name, Number(i, n)) != STORE
  {
    RenameKeepsCpu(name, Number(i, n));
    StoreIsPlain();
  }

  // ---- What else the merged configuration says ----

  lemma KeptItems(s: Section, i: nat, base: nat, key: string)
    requires HasCpu(s.name) && Readable(s) && key != "paddr" && !(key == "M5_pid" && IsFdMap(s.name))
    ensures key in MovedItems(s, i, base) <==> key in s.items
    ensures key in s.items ==> MovedItems(s, i, base)[key] == s.items[key]
  {
  }

  /** Every cpu section of every checkpoint is in the merged configuration, with the options
      it had: none is lost, none is added and none but the address and the process id changes. */
  lemma MergedSectionKeepsOptions<T>(cpts: seq<Checkpoint<T>>, out: Output<T>, memorySize: nat, pad: T,
                                     i: nat, k: nat, s: Section, key: string)
    returns (x: nat, m: Section)
    requires Mergeable(cpts) && out == Merge(cpts, memorySize, pad)
    requires i < |cpts| && k < |cpts[i].sections| && s == cpts[i].sections[k] && HasCpu(s.name)
    requires key != "paddr" && !(key == "M5_pid" && IsFdMap(s.name))
    ensures x < |out.config| && out.config[x] == m && m.name == Rename(s.name, Number(i, |cpts|))
    ensures key in m.items <==> key in s.items
    ensures key in s.items ==> m.items[key] == s.items[key]
  {
    x := ConfigContains(cpts, |cpts|, i, k);
    m := Config(cpts, |cpts|)[x];
    RenamedIsNotStore(s.name, i, |cpts|);
    MergeKeeps(cpts, memorySize, pad, x);
    KeptItems(s, i, PagesBefore(cpts, i), key);
  }

  lemma GlobalsIsNoCpu()
    ensures !HasCpu("Globals")
  {
    TrailerHasNoC();
    if HasCpu("Globals") {
      CpuHasC("Globals");
    }
  }

  function TickOf(s: Section): nat
    requires Readable(s) && !HasCpu(s.name) && s.name == "Globals"
  {
    s.items["curTick"].n
  }

  lemma {:induction false} TickCounted(sections: seq<Section>, tick: nat, k: nat)
    requires AllReadable(sections) && k < |sections| && sections[k].name == "Globals" && !HasCpu("Globals")
    ensures MaxTick(sections, tick) >= TickOf(sections[k])
  {
    var last := |sections| - 1;
    if k < last {
      TickCounted(sections[..last], tick, k);
    }
  }

  lemma {:induction false} TickSeen(sections: seq<Section>, tick: nat) returns (k: nat)
    requires AllReadable(sections) && !HasCpu("Globals")
    ensures MaxTick(sections, tick) == tick
         || (k < |sections| && sections[k].name == "Globals" && MaxTick(sections, tick) == TickOf(sections[k]))
  {
    k := 0;
    if sections == [] {
    } else {
      var last := |sections| - 1;
      k := TickSeen(sections[..last], tick);
      if MaxTick(sections, tick) != MaxTick(sections[..last], tick) {
        k := last;
      }
    }
  }

  lemma {:induction false} TicksBound<T>(cpts: seq<Checkpoint<T>>, n: nat, i: nat, k: nat)
    requires i < n <= |cpts| && UsableTo(cpts, n) && AllReadable(cpts[i].sections) && !HasCpu("Globals")
    requires k < |cpts[i].sections| && cpts[i].sections[k].name == "Globals"
    ensures Ticks(cpts, n) >= TickOf(cpts[i].sections[k])
  {
    if i == n - 1 {
      TickCounted(cpts[i].sections, Ticks(cpts, i), k);
    } else {
      TicksBound(cpts, n - 1, i, k);
    }
  }

  lemma {:induction false} TicksSeen<T>(cpts: seq<Checkpoint<T>>, n: nat) returns (i: nat, k: nat)
    requires n <= |cpts| && UsableTo(cpts, n) && !HasCpu("Globals")
    ensures Ticks(cpts, n) == 0
         || (&& i < n && AllReadable(cpts[i].sections) && k < |cpts[i].sections|
             && cpts[i].sections[k].name == "Globals" && Ticks(cpts, n) == TickOf(cpts[i].sections[k]))
  {
    i, k := 0, 0;
    if n == 0 {
    } else {
      k := TickSeen(cpts[n - 1].sections, Ticks(cpts, n - 1));
      i := n - 1;
      if Ticks(cpts, n) == Ticks(cpts, n - 1) {
        i, k := TicksSeen(cpts, n - 1);
      }
    }
  }

  /** The tick written last is the largest of all checkpoints': none exceeds it, and unless it
      is zero it is one of them. */
  lemma MergedTickIsLargest<T>(cpts: seq<Checkpoint<T>>, out: Output<T>, memorySize: nat, pad: T)
    returns (tick: nat, i: nat, k: nat)
    requires Mergeable(cpts) && out == Merge(cpts, memorySize, pad)
    ensures out.config != [] && out.config[|out.config| - 1] == Section("Globals", map["curTick" := Num(tick)])
    ensures forall j, l ::
      0 <= j < |cpts| && 0 <= l < |cpts[j].sections| && cpts[j].sections[l].name == "Globals" ==>
        "curTick" in cpts[j].sections[l].items && cpts[j].sections[l].items["curTick"].Num?
        && cpts[j].sections[l].items["curTick"].n <= tick
    ensures tick == 0 || (&& i < |cpts| && k < |cpts[i].sections| && cpts[i].sections[k].name == "Globals"
                          && "curTick" in cpts[i].sections[k].items
                          && cpts[i].sections[k].items["curTick"] == Num(tick))
  {
    tick := Ticks(cpts, |cpts|);
    GlobalsIsNoCpu();
    forall j, l | 0 <= j < |cpts| && 0 <= l < |cpts[j].sections| && cpts[j].sections[l].name == "Globals"
      ensures "curTick" in cpts[j].sections[l].items && cpts[j].sections[l].items["curTick"].Num?
      ensures cpts[j].sections[l].items["curTick"].n <= tick
    {
      UsableEach(cpts, |cpts|, j);
      TicksBound(cpts, |cpts|, j, l);
    }
    i, k := TicksSeen(cpts, |cpts|);
  }

  // ---- Plain sections in the merged configuration ----

  lemma {:induction false} PlainInConfig<T>(cpts: seq<Checkpoint<T>>, i: nat, m: Section)
    requires i <= |cpts| && UsableTo(cpts, i) && Plain(m.name)
    ensures m in Config(cpts, i) <==> 0 < i == |cpts| && m in cpts[i - 1].sections
  {
    if i == 0 {
    } else {
      PlainInConfig(cpts, i - 1, m);
      PlainKept(cpts[i - 1].sections, i - 1, |cpts|, PagesBefore(cpts, i - 1), m);
    }
  }

  lemma RangeKeeps(sections: seq<Section>, size: nat, m: Section)
    requires m.name != STORE
    ensures m in SetRange(sections, size) <==> m in sections
  {
    var ranged := SetRange(sections, size);
    if k :| 0 <= k < |sections| && sections[k] == m {
      assert ranged[k] == m;
    }
    if k :| 0 <= k < |ranged| && ranged[k] == m {
      assert sections[k] == m;
    }
  }

  lemma TrailerIsNotPlain(config: seq<Section>, size: nat, pages: nat, n: nat, tick: nat, m: Section)
    requires Plain(m.name) && m.name != STORE
    ensures m in SetRange(config, size) + Trailer(pages, n, tick) <==> m in config
  {
    RangeKeeps(config, size, m);
  }

  lemma StoreRanged(config: seq<Section>, size: nat, trailer: seq<Section>, m: Section)
    requires m.name == STORE && m in config
    ensures Section(STORE, m.items["range_size" := Num(size)]) in SetRange(config, size) + trailer
  {
    var k :| 0 <= k < |config| && config[k] == m;
    assert SetRange(config, size)[k] == Section(STORE, m.items["range_size" := Num(size)]);
    assert (SetRange(config, size) + trailer)[k] == SetRange(config, size)[k];
  }

  /** How the merged configuration is put together. */
  lemma MergeParts<T>(cpts: seq<Checkpoint<T>>, out: Output<T>, memorySize: nat, pad: T)
    returns (config: seq<Section>, size: nat, pages: nat, tick: nat)
    requires Mergeable(cpts) && out == Merge(cpts, memorySize, pad)
    ensures config == Config(cpts, |cpts|) && out.config == SetRange(config, size) + Trailer(pages, |cpts|, tick)
    ensures size == PaddedPages(PagesBefore(cpts, |cpts|), memorySize) * PAGE
  {
    config, pages, tick := Config(cpts, |cpts|), PagesBefore(cpts, |cpts|), Ticks(cpts, |cpts|);
    size := PaddedPages(pages, memorySize) * PAGE;
  }

  /** Of the ordinary sections the merged configuration has those of the merged checkpoints. */
  lemma PlainInMerge<T>(cpts: seq<Checkpoint<T>>, out: Output<T>, memorySize: nat, pad: T, m: Section)
    returns (config: seq<Section>)
    requires Mergeable(cpts) && out == Merge(cpts, memorySize, pad) && Plain(m.name) && m.name != STORE
    ensures config == Config(cpts, |cpts|) && (m in out.config <==> m in config)
  {
    var size, pages, tick;
    config, size, pages, tick := MergeParts(cpts, out, memorySize, pad);
    TrailerIsNotPlain(config, size, pages, |cpts|, tick, m);
  }

  lemma PlainOfLast<T>(cpts: seq<Checkpoint<T>>, config: seq<Section>, m: Section)
    requires Mergeable(cpts) && config == Config(cpts, |cpts|) && Plain(m.name)
    ensures m in config <==> m in cpts[|cpts| - 1].sections
  {
    PlainInConfig(cpts, |cpts|, m);
  }

  lemma NamedStore(m: Section)
    requires m.name == STORE
    ensures Plain(m.name)
  {
    StoreIsPlain();
  }

  /** The ordinary sections of the merged configuration are those of the last checkpoint,
      options included. */
  lemma MergedPlainSections<T>(cpts: seq<Checkpoint<T>>, out: Output<T>, memorySize: nat, pad: T, m: Section)
    requires Mergeable(cpts) && out == Merge(cpts, memorySize, pad) && Plain(m.name) && m.name != STORE
    ensures m in out.config <==> m in cpts[|cpts| - 1].sections
  {
    var config := PlainInMerge(cpts, out, memorySize, pad, m);
    PlainOfLast(cpts, config, m);
  }

  /** The one exception: the memory section records the size of the merged image. */
  lemma MergedStoreSection<T>(cpts: seq<Checkpoint<T>>, out: Output<T>, memorySize: nat, pad: T, m: Section)
    requires Mergeable(cpts) && out == Merge(cpts, memorySize, pad)
    requires m.name == STORE && m in cpts[|cpts| - 1].sections
    ensures
      var total := PaddedPages(PagesBefore(cpts, |cpts|), memorySize);
      Section(STORE, m.items["range_size" := Num(total * PAGE)]) in out.config
  {
    var config, size, pages, tick := MergeParts(cpts, out, memorySize, pad);
    NamedStore(m);
    PlainOfLast(cpts, config, m);
    StoreRanged(config, size, Trailer(pages, |cpts|, tick), m);
  }

  // ---- The merge in terms of what the checkpoints say ----

  /** The first section "system" has the option `pagePtr` with value `p`. */
  ghost predicate SaysPages(sections: seq<Section>, p: nat) {
    exists k :: 0 <= k < |sections| && SaysPagesAt(sections, p, k)
  }

  ghost predicate SaysPagesAt(sections: seq<Section>, p: nat, k: nat)
    requires k < |sections|
  {
    && sections[k].name == "system"
    && (forall j :: 0 <= j < k ==> sections[j].name != "system")
    && "pagePtr" in sections[k].items && sections[k].items["pagePtr"] == Num(p)
  }

  /** `ps` are the numbers of pages that the checkpoints give. */
  ghost predicate AllSayPages<T>(cpts: seq<Checkpoint<T>>, ps: seq<nat>) {
    |ps| == |cpts| && forall i :: 0 <= i < |cpts| ==> SaysPages(cpts[i].sections, ps[i])
  }

  lemma {:induction false} LookupFirst(sections: seq<Section>, p: nat, k: nat)
    requires k < |sections| && SaysPagesAt(sections, p, k)
    ensures Lookup(sections, "system", "pagePtr") == Some(p)
  {
    if k > 0 {
      assert sections[0].name != "system";
      LookupFirst(sections[1..], p, k - 1);
    }
  }

  lemma PagesSaid<T>(c: Checkpoint<T>, p: nat)
    requires SaysPages(c.sections, p)
    ensures Pages(c) == p
  {
    var k :| 0 <= k < |c.sections| && SaysPagesAt(c.sections, p, k);
    LookupFirst(c.sections, p, k);
  }

  lemma {:induction false} PagesBeforeIs<T>(cpts: seq<Checkpoint<T>>, ps: seq<nat>, i: nat)
    requires AllSayPages(cpts, ps) && i <= |cpts|
    ensures PagesBefore(cpts, i) == Sum(ps[..i])
  {
    if i == 0 {
    } else {
      PagesBeforeIs(cpts, ps, i - 1);
      PagesSaid(cpts[i - 1], ps[i - 1]);
      assert ps[..i][..i - 1] == ps[..i - 1];
    }
  }

  lemma OnlySystem(ranged: seq<Section>, pages: nat, n: nat, tick: nat, y: nat)
    requires NoTrailerNames(ranged) && y < |ranged| + 2
    ensures |Trailer(pages, n, tick)| == 2
    ensures (ranged + Trailer(pages, n, tick))[y].name == "system" <==> y == |ranged|
    ensures (ranged + Trailer(pages, n, tick))[|ranged|]
         == Section("system", map["pagePtr" := Num(pages), "nextPID" := Num(n)])
  {
    assert "system"[0] != "Globals"[0];
  }

  lemma RangedNames(sections: seq<Section>, size: nat)
    requires NoTrailerNames(sections)
    ensures NoTrailerNames(SetRange(sections, size))
  {
  }

  lemma SystemInMerge<T>(cpts: seq<Checkpoint<T>>, out: Output<T>, memorySize: nat, pad: T, y: nat) returns (x: nat)
    requires Mergeable(cpts) && out == Merge(cpts, memorySize, pad) && y < |out.config|
    ensures x == |out.config| - 2 && (out.config[y].name == "system" <==> y == x)
    ensures out.config[x]
         == Section("system", map["pagePtr" := Num(PagesBefore(cpts, |cpts|)), "nextPID" := Num(|cpts|)])
  {
    var n, pages := |cpts|, PagesBefore(cpts, |cpts|);
    var size := PaddedPages(pages, memorySize) * PAGE;
    ConfigNotTrailer(cpts);
    RangedNames(Config(cpts, n), size);
    OnlySystem(SetRange(Config(cpts, n), size), pages, n, Ticks(cpts, n), y);
    x := |out.config| - 2;
  }

  /** The merged configuration has exactly one section "system".  Its pages are the sum of the
      checkpoints' pages, and the next process id is the number of checkpoints. */
  lemma MergedSystemSection<T>(cpts: seq<Checkpoint<T>>, out: Output<T>, memorySize: nat, pad: T, ps: seq<nat>)
    returns (x: nat)
    requires Mergeable(cpts) && out == Merge(cpts, memorySize, pad) && AllSayPages(cpts, ps)
    ensures x < |out.config|
    ensures out.config[x] == Section("system", map["pagePtr" := Num(Sum(ps)), "nextPID" := Num(|cpts|)])
    ensures forall y :: 0 <= y < |out.config| && out.config[y].name == "system" ==> y == x
  {
    x := |out.config| - 2;
    forall y | 0 <= y < |out.config| ensures out.config[y].name == "system" <==> y == x {
      var z := SystemInMerge(cpts, out, memorySize, pad, y);
    }
    var z := SystemInMerge(cpts, out, memorySize, pad, x);
    PagesBeforeIs(cpts, ps, |cpts|);
    assert ps[..|cpts|] == ps;
  }

  /** How much of each memory file is copied: the pages given, or all of it if it is shorter. */
  function CopiedSize<T>(c: Checkpoint<T>, p: nat): nat {
    if p * 4096 <= |c.memory| then p * 4096 else |c.memory|
  }

  function CopiedSizes<T>(cpts: seq<Checkpoint<T>>, ps: seq<nat>): seq<nat>
    requires |ps| == |cpts|
  {
    seq(|cpts|, (i: nat) requires i < |cpts| => CopiedSize(cpts[i], ps[i]))
  }

  lemma {:induction false} ImageSize<T>(cpts: seq<Checkpoint<T>>, ps: seq<nat>, i: nat)
    requires AllSayPages(cpts, ps) && i <= |cpts|
    ensures |Image(cpts, i)| == Sum(CopiedSizes(cpts, ps)[..i])
  {
    if i == 0 {
    } else {
      ImageSize(cpts, ps, i - 1);
      PagesSaid(cpts[i - 1], ps[i - 1]);
      var sizes := CopiedSizes(cpts, ps);
      assert sizes[..i][..i - 1] == sizes[..i - 1];
    }
  }

  /** What file `i` contributes stands in `image` right after what the files before it do. */
  ghost predicate Contributes<T>(cpts: seq<Checkpoint<T>>, ps: seq<nat>, image: seq<T>, i: nat)
    requires |ps| == |cpts| && i < |cpts|
  {
    StandsAt(image, Sum(CopiedSizes(cpts, ps)[..i]), cpts[i].memory, CopiedSize(cpts[i], ps[i]))
  }

  /** The first `n` cells of `memory` stand in `image` from `start` on. */
  ghost predicate StandsAt<T>(image: seq<T>, start: nat, memory: seq<T>, n: nat) {
    n <= |memory| && start + n <= |image| && forall p :: 0 <= p < n ==> image[start + p] == memory[p]
  }

  lemma StandsInMore<T>(image: seq<T>, more: seq<T>, start: nat, memory: seq<T>, n: nat)
    requires StandsAt(image, start, memory, n)
    ensures StandsAt(image + more, start, memory, n)
  {
  }

  lemma AppendedStands<T>(a: seq<T>, memory: seq<T>, n: nat, all: seq<T>)
    requires n <= |memory| && a + memory[..n] <= all
    ensures StandsAt(all, |a|, memory, n)
  {
    forall p | 0 <= p < n ensures all[|a| + p] == memory[p] {
      AppendedAt(a, memory[..n], all, p);
    }
  }

  lemma ContributesTo<T>(cpts: seq<Checkpoint<T>>, ps: seq<nat>, image: seq<T>, more: seq<T>, i: nat)
    requires AllSayPages(cpts, ps) && i < |cpts| && image == Image(cpts, |cpts|)
    ensures Contributes(cpts, ps, image + more, i)
  {
    var n := CopiedSize(cpts[i], ps[i]);
    BlockIn(cpts, ps, i, n);
    AppendedStands(Image(cpts, i), cpts[i].memory, n, image);
    ImageSize(cpts, ps, i);
    StandsInMore(image, more, |Image(cpts, i)|, cpts[i].memory, n);
  }

  lemma BlockIn<T>(cpts: seq<Checkpoint<T>>, ps: seq<nat>, i: nat, n: nat)
    requires AllSayPages(cpts, ps) && i < |cpts| && n == CopiedSize(cpts[i], ps[i])
    ensures Image(cpts, i) + cpts[i].memory[..n] <= Image(cpts, |cpts|)
  {
    PagesSaid(cpts[i], ps[i]);
    assert n == |cpts[i].memory| ==> cpts[i].memory[..n] == cpts[i].memory;
    ImageGrows(cpts, i + 1, |cpts|);
  }

  lemma ImageParts<T>(cpts: seq<Checkpoint<T>>, out: Output<T>, memorySize: nat, pad: T)
    returns (image: seq<T>, pages: nat, padded: nat)
    requires Mergeable(cpts) && out == Merge(cpts, memorySize, pad)
    ensures image == Image(cpts, |cpts|) && pages == PagesBefore(cpts, |cpts|)
    ensures padded == PaddedPages(pages, memorySize)
    ensures out.image == image + Fill(pad, (padded - pages) * PAGE)
  {
    image, pages := Image(cpts, |cpts|), PagesBefore(cpts, |cpts|);
    padded := PaddedPages(pages, memorySize);
  }

  lemma WholeImageSize<T>(cpts: seq<Checkpoint<T>>, ps: seq<nat>, image: seq<T>)
    requires AllSayPages(cpts, ps) && image == Image(cpts, |cpts|)
    ensures |image| == Sum(CopiedSizes(cpts, ps)) && PagesBefore(cpts, |cpts|) == Sum(ps)
  {
    ImageSize(cpts, ps, |cpts|);
    PagesBeforeIs(cpts, ps, |cpts|);
    assert ps[..|cpts|] == ps && CopiedSizes(cpts, ps)[..|cpts|] == CopiedSizes(cpts, ps);
  }

  /** The merged memory, cell by cell: what each file contributes stands right after what the
      files before it do, and padding follows, whole pages of it, until the requested size is
      reached.  When every file is full, the pages recorded are those before the padding. */
  lemma MergedImage<T>(cpts: seq<Checkpoint<T>>, out: Output<T>, memorySize: nat, pad: T, ps: seq<nat>)
    returns (filled: nat, padded: nat)
    requires Mergeable(cpts) && out == Merge(cpts, memorySize, pad) && AllSayPages(cpts, ps)
    ensures filled == Sum(CopiedSizes(cpts, ps)) && |out.image| == filled + (padded - Sum(ps)) * 4096
    ensures padded >= Sum(ps) && padded * 4096 >= memorySize
    ensures padded > Sum(ps) ==> (padded - 1) * 4096 < memorySize
    ensures forall i :: 0 <= i < |cpts| ==> Contributes(cpts, ps, out.image, i)
    ensures forall x :: filled <= x < |out.image| ==> out.image[x] == pad
    ensures (forall k :: 0 <= k < |cpts| ==> ps[k] * 4096 <= |cpts[k].memory|) ==> filled == Sum(ps) * 4096
  {
    var image, pages;
    image, pages, padded := ImageParts(cpts, out, memorySize, pad);
    filled := |image|;
    WholeImageSize(cpts, ps, image);
    forall i | 0 <= i < |cpts| ensures Contributes(cpts, ps, out.image, i) {
      ContributesTo(cpts, ps, image, Fill(pad, (padded - pages) * PAGE), i);
    }
    if forall k :: 0 <= k < |cpts| ==> ps[k] * 4096 <= |cpts[k].memory| {
      WholeSizes(cpts, ps);
    }
  }

  lemma {:induction false} FullSizes<T>(cpts: seq<Checkpoint<T>>, ps: seq<nat>, i: nat)
    requires |ps| == |cpts| && i <= |cpts| && forall k :: 0 <= k < |cpts| ==> ps[k] * 4096 <= |cpts[k].memory|
    ensures Sum(CopiedSizes(cpts, ps)[..i]) == Sum(ps[..i]) * 4096
  {
    if i == 0 {
    } else {
      FullSizes(cpts, ps, i - 1);
      var sizes := CopiedSizes(cpts, ps);
      assert sizes[..i][..i - 1] == sizes[..i - 1] && ps[..i][..i - 1] == ps[..i - 1];
    }
  }

  lemma WholeSizes<T>(cpts: seq<Checkpoint<T>>, ps: seq<nat>)
    requires |ps| == |cpts| && forall k :: 0 <= k < |cpts| ==> ps[k] * 4096 <= |cpts[k].memory|
    ensures Sum(CopiedSizes(cpts, ps)) == Sum(ps) * 4096
  {
    FullSizes(cpts, ps, |cpts|);
    assert ps[..|cpts|] == ps && CopiedSizes(cpts, ps)[..|cpts|] == CopiedSizes(cpts, ps);
  }

  // ---- What becomes of a cpu section, option by option ----

  /** The name ends in "workload", some character and "FdMap256". */
  predicate EndsInFdMap(name: string, head: string, c: char) {
    c != '\n' && name == head + "workload" + [c] + "FdMap256"
  }

  lemma FdMapAt(name: string, head: string, c: char)
    requires EndsInFdMap(name, head, c)
    ensures IsFdMap(name)
  {
    var k := |head|;
    assert name[k..k + 8] == "workload" && name[k + 9..] == "FdMap256";
  }

  lemma FdMapExactly(name: string)
    ensures IsFdMap(name) <==> exists head, c :: EndsInFdMap(name, head, c)
  {
    if IsFdMap(name) {
      var k := |name| - 17;
      assert EndsInFdMap(name, name[..k], name[k + 8]);
    }
    if head, c :| EndsInFdMap(name, head, c) {
      FdMapAt(name, head, c);
    }
  }

  /** The address in `items` has moved up by `pages`, and where the section describes the files
      of a process, its process id has become `i`. */
  ghost predicate Moved(s: Section, items: map<string, Value>, i: nat, pages: nat) {
    && ("paddr" in s.items ==>
          && "paddr" in items
          && s.items["paddr"].Num?
          && items["paddr"] == Num(s.items["paddr"].n + pages * 4096))
    && (forall head, c :: EndsInFdMap(s.name, head, c) ==> "M5_pid" in items && items["M5_pid"] == Num(i))
  }

  lemma MovedOptions(s: Section, i: nat, pages: nat)
    requires HasCpu(s.name) && Readable(s)
    ensures Moved(s, MovedItems(s, i, pages), i, pages)
  {
    if "paddr" in s.items {
      MovedAddress(s, i, pages);
    }
    forall head, c | EndsInFdMap(s.name, head, c)
      ensures "M5_pid" in MovedItems(s, i, pages) && MovedItems(s, i, pages)["M5_pid"] == Num(i)
    {
      FdMapAt(s.name, head, c);
    }
  }

  /** The address of a cpu section moves up by the pages of the checkpoints before, and where a
      section describes the files of a process, its process id becomes the number of the
      checkpoint. */
  lemma MergedSectionMoves<T>(cpts: seq<Checkpoint<T>>, out: Output<T>, memorySize: nat, pad: T, ps: seq<nat>,
                              i: nat, k: nat, s: Section)
    returns (x: nat, m: Section)
    requires Mergeable(cpts) && out == Merge(cpts, memorySize, pad) && AllSayPages(cpts, ps)
    requires i < |cpts| && k < |cpts[i].sections| && s == cpts[i].sections[k] && HasCpu(s.name)
    ensures x < |out.config| && out.config[x] == m && m.name == Rename(s.name, Number(i, |cpts|))
    ensures Moved(s, m.items, i, Sum(ps[..i]))
  {
    x, m := CpuInMerge(cpts, out, memorySize, pad, i, k, s);
    MovedOptions(s, i, PagesBefore(cpts, i));
    PagesBeforeIs(cpts, ps, i);
  }

  lemma CpuInMerge<T>(cpts: seq<Checkpoint<T>>, out: Output<T>, memorySize: nat, pad: T, i: nat, k: nat, s: Section)
    returns (x: nat, m: Section)
    requires Mergeable(cpts) && out == Merge(cpts, memorySize, pad)
    requires i < |cpts| && k < |cpts[i].sections| && s == cpts[i].sections[k] && HasCpu(s.name)
    ensures x < |out.config| && out.config[x] == m && Readable(s)
    ensures m == Section(Rename(s.name, Number(i, |cpts|)), MovedItems(s, i, PagesBefore(cpts, i)))
  {
    x := ConfigContains(cpts, |cpts|, i, k);
    m := Config(cpts, |cpts|)[x];
    RenamedIsNotStore(s.name, i, |cpts|);
    MergeKeeps(cpts, memorySize, pad, x);
  }
}
