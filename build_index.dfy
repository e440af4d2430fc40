/** The indexing pipeline of backend/build_index.py: the extension allow-list, the
    never-raising loader `ImageDataset.__getitem__`, the batch collation `collate_fn`, and
    `build_index_batched`, whose loop keeps the embedding rows and the metadata records in
    lockstep and writes nothing unless at least one embedding was produced.

    The directory listing (`glob`), the image decoder with its preprocessing transform, the
    embedding network and the random price draws are inputs; the faiss index is modelled
    as an append-only list of rows. */
module BuildIndex {
  import opened Wrappers
  import opened Text
  import opened Lists
  import opened PosixPath

  type Path = string

  /** One embedding: a row of the feature matrix. */
  type Row = seq<real>

  /** A value of `np.random.randint(20, 200)`: 20 up to and including 199. */
  type Draw = d: nat | 20 <= d < 200 witness 20

  const ImageExtensions: set<string> := {".jpg", ".jpeg", ".png", ".webp"}
  const CopyDir: string := "uploads/local_dataset"
  const ImageUrlPrefix: string := "http://localhost:8001/uploads/local_dataset/"

  // ---------------------------------------------------------------------------------
  // The extension allow-list

  /** `os.path.splitext(p)[1].lower() in valid_extensions`. */
  predicate HasImageExtension(p: Path)
  {
    Lower(SplitExt(p).1) in ImageExtensions
  }

  /** A path passes exactly when its last component has an extension and that extension,
      from the path's last `.` to its end, lower-cases to an allowed one. A path without an
      extension (`README`, `.png`) never passes. */
  lemma ImageExtensionMeans(p: Path)
    ensures HasImageExtension(p) <==>
      HasExtension(p) && Lower(p[LastIndexOf(p, '.')..]) in ImageExtensions
  {
    SplitExtCuts(p);
    if !HasExtension(p) {
      assert Lower(SplitExt(p).1) == [];
    }
  }

  /** The extension test ignores case: two paths that differ only in the case of their
      letters are both kept or both dropped (`photo.JPG` like `photo.jpg`). */
  lemma ExtensionMatchIgnoresCase(p: Path, q: Path)
    requires Lower(p) == Lower(q)
    ensures HasImageExtension(p) == HasImageExtension(q)
  {
    SplitExtLower(p);
    SplitExtLower(q);
    LowerIdempotent(SplitExt(p).1);
    LowerIdempotent(SplitExt(q).1);
  }

  /** `[p for p in image_paths if ...]`: the paths with an allowed extension, in listing
      order; every other file is dropped without a trace. */
  function SelectImages(paths: seq<Path>): (r: seq<Path>)
    ensures forall i :: 0 <= i < |r| ==> HasImageExtension(r[i])
    ensures forall k :: 0 <= k < |paths| && HasImageExtension(paths[k]) ==> paths[k] in r
    ensures r == [] <==> forall k :: 0 <= k < |paths| ==> !HasImageExtension(paths[k])
  {
    FilterEmpty(paths, HasImageExtension);
    FilterKeepsPassing(paths, HasImageExtension);
    Filter(paths, HasImageExtension)
  }

  /** The candidates are listed paths, taken at strictly increasing listing positions: the
      filter drops paths but never adds, repeats or reorders one. */
  lemma SelectedInListingOrder(paths: seq<Path>)
    ensures var r := SelectImages(paths); var ks := KeptPositions(paths, HasImageExtension);
      && |ks| == |r|
      && (forall i :: 0 <= i < |ks| ==> ks[i] < |paths| && r[i] == paths[ks[i]])
      && (forall i, j :: 0 <= i < j < |ks| ==> ks[i] < ks[j])
  {
    KeepsOrder(paths, HasImageExtension);
  }

  // ---------------------------------------------------------------------------------
  // Loading and collation

  /** What `__getitem__` returns: the image tensor, or `None`, with the path. */
  datatype Loaded<I> = Loaded(image: Option<I>, path: Path)

  predicate LoadedOk<I>(x: Loaded<I>)
  {
    x.image.Some?
  }

  /** `ImageDataset.__getitem__(idx)`. `load(p)` stands for `Image.open(p).convert('RGB')`
      followed by the preprocessing transform, with `None` for any exception they raise;
      the item never raises and always carries the original path. */
  function GetItem<I>(paths: seq<Path>, idx: nat, load: Path -> Option<I>): (r: Loaded<I>)
    requires idx < |paths|
    ensures r.path == paths[idx]
    ensures r.image.None? <==> load(paths[idx]).None?
    ensures r.image.Some? ==> r.image == load(paths[idx])
  {
    Loaded(load(paths[idx]), paths[idx])
  }

  /** The whole dataset, item by item. */
  function LoadAll<I>(paths: seq<Path>, load: Path -> Option<I>): (r: seq<Loaded<I>>)
    ensures |r| == |paths|
    ensures forall i :: 0 <= i < |paths| ==> r[i] == GetItem(paths, i, load)
  {
    seq(|paths|, i requires 0 <= i < |paths| => GetItem(paths, i, load))
  }

  /** The batch the `DataLoader` hands over for positions `start` up to `end`: the same
      items the whole dataset holds there. */
  function LoadRange<I>(paths: seq<Path>, start: nat, end: nat, load: Path -> Option<I>)
    : (r: seq<Loaded<I>>)
    requires start <= end <= |paths|
    ensures r == LoadAll(paths, load)[start..end]
  {
    var r := seq(end - start, j requires 0 <= j < end - start => GetItem(paths, start + j, load));
    assert forall j :: 0 <= j < end - start ==> r[j] == LoadAll(paths, load)[start + j];
    r
  }

  /** The items of a batch that loaded, in their order. */
  function Survivors<I>(batch: seq<Loaded<I>>): (r: seq<Loaded<I>>)
    ensures forall i :: 0 <= i < |r| ==> r[i].image.Some?
    ensures forall k :: 0 <= k < |batch| && batch[k].image.Some? ==> batch[k] in r
  {
    FilterKeepsPassing(batch, LoadedOk);
    Filter(batch, LoadedOk)
  }

  /** The survivors are items of the batch, taken at strictly increasing batch positions. */
  lemma SurvivorsInBatchOrder<I>(batch: seq<Loaded<I>>)
    ensures var r := Survivors(batch); var ks := KeptPositions(batch, LoadedOk);
      && |ks| == |r|
      && (forall i :: 0 <= i < |ks| ==> ks[i] < |batch| && r[i] == batch[ks[i]])
      && (forall i, j :: 0 <= i < j < |ks| ==> ks[i] < ks[j])
  {
    KeepsOrder(batch, LoadedOk);
  }

  function ImagesOf<I>(kept: seq<Loaded<I>>): (r: seq<I>)
    requires forall i :: 0 <= i < |kept| ==> kept[i].image.Some?
    ensures |r| == |kept|
    ensures forall i :: 0 <= i < |kept| ==> Some(r[i]) == kept[i].image
  {
    seq(|kept|, i requires 0 <= i < |kept| => kept[i].image.value)
  }

  function PathsOf<I>(kept: seq<Loaded<I>>): (r: seq<Path>)
    ensures |r| == |kept|
    ensures forall i :: 0 <= i < |kept| ==> r[i] == kept[i].path
  {
    seq(|kept|, i requires 0 <= i < |kept| => kept[i].path)
  }

  /** What `collate_fn` returns: `(None, None)`, or the stacked images with their paths. */
  datatype Collated<I> = NoBatch | Batch(images: seq<I>, paths: seq<Path>)

  /** `collate_fn(batch)`: failed items are dropped; an all-failed batch gives
      `(None, None)`; otherwise image i and path i come from the same surviving item. */
  function Collate<I>(batch: seq<Loaded<I>>): (r: Collated<I>)
    ensures r.NoBatch? <==> forall k :: 0 <= k < |batch| ==> batch[k].image.None?
    ensures r.Batch? ==> 0 < |r.images| == |r.paths| == |Survivors(batch)|
    ensures r.Batch? ==> forall i :: 0 <= i < |r.images| ==>
      Survivors(batch)[i] == Loaded(Some(r.images[i]), r.paths[i])
  {
    var kept := Survivors(batch);
    FilterEmpty(batch, LoadedOk);
    if kept == [] then NoBatch else Batch(ImagesOf(kept), PathsOf(kept))
  }

  /** The survivors keep their relative order: image i and path i are those of the batch's
      item at the i-th successful position, positions increase, and no successful item is
      left out. */
  lemma CollateKeepsOrder<I>(batch: seq<Loaded<I>>)
    requires Collate(batch).Batch?
    ensures var r := Collate(batch); var ks := KeptPositions(batch, LoadedOk);
      && |ks| == |r.images|
      && (forall i :: 0 <= i < |ks| ==>
            ks[i] < |batch| && batch[ks[i]] == Loaded(Some(r.images[i]), r.paths[i]))
      && (forall i, j :: 0 <= i < j < |ks| ==> ks[i] < ks[j])
      && (forall k :: 0 <= k < |batch| && batch[k].image.Some? ==> k in ks)
  {
    KeepsOrder(batch, LoadedOk);
  }

  // ---------------------------------------------------------------------------------
  // Embeddings, metadata and the index

  /** `model(images)` reshaped to one row per image: the extractor maps each image to its
      row, in order. */
  function EmbedBatch<I>(images: seq<I>, embed: I -> Row): (r: seq<Row>)
    ensures |r| == |images|
    ensures forall i :: 0 <= i < |images| ==> r[i] == embed(images[i])
  {
    seq(|images|, i requires 0 <= i < |images| => embed(images[i]))
  }

  /** The extractor's contract: every row it returns has the same length `dim`. */
  ghost predicate FixedWidth<I(!new)>(embed: I -> Row, dim: nat)
  {
    forall x :: |embed(x)| == dim
  }

  /** `np.vstack(features_list)`: the batches' rows, one batch after the other. */
  function Stack(blocks: seq<seq<Row>>): seq<Row>
  {
    if blocks == [] then [] else Stack(blocks[..|blocks| - 1]) + blocks[|blocks| - 1]
  }

  /** `root.replace('_', ' ')`. */
  function UnderscoresToSpaces(s: string): (r: string)
    ensures |r| == |s|
    ensures forall i :: 0 <= i < |s| ==> r[i] == (if s[i] == '_' then ' ' else s[i])
  {
    seq(|s|, i requires 0 <= i < |s| => if s[i] == '_' then ' ' else s[i])
  }

  /** The display name: the file name without its extension, `_` as a space, title-cased. */
  function DisplayName(filename: string): string
  {
    Title(UnderscoresToSpaces(SplitExt(filename).0))
  }

  /** The display name has the length of the file name's root and no `_`; each `_` became a
      space, other characters keep their letter up to case, and a letter is upper-case
      exactly when it starts a word. */
  lemma DisplayNameShape(filename: string)
    ensures var root := SplitExt(filename).0; var r := DisplayName(filename);
      && |r| == |root|
      && (forall i :: 0 <= i < |r| ==> r[i] != '_')
      && (forall i :: 0 <= i < |r| && root[i] == '_' ==> r[i] == ' ')
      && (forall i :: 0 <= i < |r| && root[i] != '_' ==> ToLower(r[i]) == ToLower(root[i]))
      && (forall i :: 0 <= i < |r| && IsCased(r[i]) ==>
            (IsUpper(r[i]) <==> i == 0 || !IsCased(r[i - 1])))
  {
    var spaced := UnderscoresToSpaces(SplitExt(filename).0);
    var r := Title(spaced);
    assert forall i :: 0 <= i < |r| ==> IsCased(r[i]) == IsCased(spaced[i]);
    assert forall i :: 0 <= i < |r| && !IsCased(spaced[i]) ==> r[i] == spaced[i];
  }

  /** One metadata entry: the dictionary `{"id", "name", "price", "image", "path"}`. Its
      `name`, `image` and `path` are all computed from the copied file's name, so the
      record keeps that name and gives the three keys as members; `price` is the
      placeholder `"$n"`. */
  datatype Record = Record(id: nat, filename: string, price: string)
  {
    /** `"name"`: the display name of the file. */
    function Name(): string
    {
      DisplayName(filename)
    }

    /** `"image"`: the URL under which the backend serves the copy. */
    function Image(): string
    {
      ImageUrlPrefix + filename
    }

    /** `"path"`: `os.path.join("uploads", "local_dataset", filename)`. */
    function Path(): string
    {
      CopyDir + "/" + filename
    }
  }

  /** The placeholder price `f"${draw}"`. */
  function Price(draw: nat): string
  {
    "$" + NatToString(draw)
  }

  /** A price is a dollar sign followed by decimal digits that read back as the draw. */
  lemma PriceReadsBack(draw: nat)
    ensures var p := Price(draw);
      |p| >= 2 && p[0] == '$' && (forall i :: 1 <= i < |p| ==> '0' <= p[i] <= '9')
      && DecimalValue(p[1..]) == draw
  {
    NatToStringRoundTrip(draw);
    assert Price(draw)[1..] == NatToString(draw);
  }

  /** The record appended for the image at `source` when the metadata already holds `id`
      records; `draw` is the `np.random.randint(20, 200)` drawn for it. The name, the URL
      and the stored path all derive from the file's base name. */
  function MakeRecord(id: nat, source: Path, draw: nat): (r: Record)
    ensures r.id == id && r.price == Price(draw)
    ensures r.filename == Basename(source)
  {
    Record(id, Basename(source), Price(draw))
  }

  /** The metadata for the given image paths, in order; the k-th record gets the k-th
      random draw. */
  function Records(paths: seq<Path>, priceDraw: nat -> Draw): (r: seq<Record>)
    ensures |r| == |paths|
    ensures forall i :: 0 <= i < |r| ==> r[i].id == i
  {
    var r := seq(|paths|, i requires 0 <= i < |paths| => MakeRecord(i, paths[i], priceDraw(i)));
    assert forall i :: 0 <= i < |r| ==> r[i] == MakeRecord(i, paths[i], priceDraw(i));
    r
  }

  lemma RecordsAt(paths: seq<Path>, priceDraw: nat -> Draw)
    ensures forall i :: 0 <= i < |paths| ==>
      Records(paths, priceDraw)[i] == MakeRecord(i, paths[i], priceDraw(i))
  {
  }

  lemma RecordsAppend(paths: seq<Path>, p: Path, priceDraw: nat -> Draw)
    ensures Records(paths + [p], priceDraw)
      == Records(paths, priceDraw) + [MakeRecord(|paths|, p, priceDraw(|paths|))]
  {
  }

  /** `faiss.IndexFlatL2(dimension)`, only as far as the indexer uses it: rows of the fixed
      dimension, appended in order by `add`. */
  class FlatL2Index {
    const dimension: nat
    var vectors: seq<Row>

    ghost predicate Valid()
      reads this
    {
      forall i :: 0 <= i < |vectors| ==> |vectors[i]| == dimension
    }

    constructor (d: nat)
      ensures dimension == d && vectors == [] && Valid()
    {
      dimension := d;
      vectors := [];
    }

    /** `index.add(matrix)`. */
    method Add(rows: seq<Row>)
      requires Valid()
      requires forall i :: 0 <= i < |rows| ==> |rows[i]| == dimension
      modifies this
      ensures Valid() && vectors == old(vectors) + rows
    {
      vectors := vectors + rows;
    }
  }

  /** How a run ends: the early return, "Indexing failed.", or both artifacts written. */
  datatype BuildOutcome =
    | NoImagesFound
    | IndexingFailed
    | IndexWritten(dimension: nat, vectors: seq<Row>, metadata: seq<Record>)

  /** What a run produces, independent of the batch size: every listed image file that
      loads, in listing order, gets one row and one record. */
  function ExpectedBuild<I>(listing: seq<Path>, load: Path -> Option<I>, embed: I -> Row,
                            priceDraw: nat -> Draw): BuildOutcome
  {
    var candidates := SelectImages(listing);
    if candidates == [] then NoImagesFound else ExpectedFrom(candidates, load, embed, priceDraw)
  }

  /** What the batch loop and the write guard make of the candidate files: "Indexing
      failed." when none loads, else one row and one record per file that loads. */
  function ExpectedFrom<I>(candidates: seq<Path>, load: Path -> Option<I>, embed: I -> Row,
                           priceDraw: nat -> Draw): BuildOutcome
  {
    var kept := Survivors(LoadAll(candidates, load));
    if kept == [] then IndexingFailed
    else
      var rows := EmbedBatch(ImagesOf(kept), embed);
      IndexWritten(|rows[0]|, rows, Records(PathsOf(kept), priceDraw))
  }

  /** The images that make it into the index: listed image files that load, in listing
      order. */
  function Indexed<I>(listing: seq<Path>, load: Path -> Option<I>): seq<Loaded<I>>
  {
    Survivors(LoadAll(SelectImages(listing), load))
  }

  /** Every indexed item is a listed file with an allowed extension, carrying the image its
      path loads to. */
  lemma IndexedAreLoadableImages<I>(listing: seq<Path>, load: Path -> Option<I>)
    ensures forall i :: 0 <= i < |Indexed(listing, load)| ==>
      var x := Indexed(listing, load)[i];
      x.path in listing && HasImageExtension(x.path) && x.image.Some? && load(x.path) == x.image
  {
    var candidates := SelectImages(listing);
    var all := LoadAll(candidates, load);
    forall i | 0 <= i < |Indexed(listing, load)|
      ensures var x := Indexed(listing, load)[i];
        x.path in listing && HasImageExtension(x.path) && x.image.Some? && load(x.path) == x.image
    {
      var x := Indexed(listing, load)[i];
      FilterFrom(all, LoadedOk, i);
      var j :| 0 <= j < |all| && all[j] == x;
      assert x == Loaded(load(candidates[j]), candidates[j]);
      FilterFrom(listing, HasImageExtension, j);
    }
  }

  /** Conversely, every listed file with an allowed extension that loads is indexed. */
  lemma LoadableImagesAreIndexed<I>(listing: seq<Path>, load: Path -> Option<I>, k: nat)
    requires k < |listing| && HasImageExtension(listing[k]) && load(listing[k]).Some?
    ensures exists i :: 0 <= i < |Indexed(listing, load)| && Indexed(listing, load)[i].path == listing[k]
  {
    var candidates := SelectImages(listing);
    var all := LoadAll(candidates, load);
    assert listing[k] in candidates;
    var j :| 0 <= j < |candidates| && candidates[j] == listing[k];
    assert all[j] == Loaded(load(listing[k]), listing[k]);
    assert all[j] in Indexed(listing, load);
  }

  /** A run writes the index exactly when some listed image file loads, returns early
      exactly when no listed file has an image extension, and fails otherwise. */
  lemma BuildOutcomeCases<I>(listing: seq<Path>, load: Path -> Option<I>, embed: I -> Row,
                             priceDraw: nat -> Draw)
    ensures var out := ExpectedBuild(listing, load, embed, priceDraw);
      && (out.NoImagesFound? <==> forall k :: 0 <= k < |listing| ==> !HasImageExtension(listing[k]))
      && (out.IndexWritten? <==> exists k :: 0 <= k < |listing| && HasImageExtension(listing[k])
                                                               && load(listing[k]).Some?)
  {
    var out := ExpectedBuild(listing, load, embed, priceDraw);
    if exists k :: 0 <= k < |listing| && HasImageExtension(listing[k]) && load(listing[k]).Some? {
      var k :| 0 <= k < |listing| && HasImageExtension(listing[k]) && load(listing[k]).Some?;
      LoadableImagesAreIndexed(listing, load, k);
    }
    if out.IndexWritten? {
      IndexedAreLoadableImages(listing, load);
      var x := Indexed(listing, load)[0];
      var k :| 0 <= k < |listing| && listing[k] == x.path;
    }
  }

  /** A written index and its metadata are aligned: row i is the embedding of the i-th
      indexed image, record i describes that same file and has id i, and every row has the
      extractor's dimension. */
  lemma WrittenIndexAligned<I(!new)>(listing: seq<Path>, load: Path -> Option<I>, embed: I -> Row,
                               dim: nat, priceDraw: nat -> Draw)
    requires FixedWidth(embed, dim)
    requires ExpectedBuild(listing, load, embed, priceDraw).IndexWritten?
    ensures var out := ExpectedBuild(listing, load, embed, priceDraw);
      var kept := Indexed(listing, load);
      && out.dimension == dim
      && |out.vectors| == |out.metadata| == |kept| > 0
      && (forall i :: 0 <= i < |kept| ==>
            && |out.vectors[i]| == dim
            && out.vectors[i] == embed(kept[i].image.value)
            && out.metadata[i] == MakeRecord(i, kept[i].path, priceDraw(i)))
  {
    var kept := Indexed(listing, load);
    assert kept == Survivors(LoadAll(SelectImages(listing), load));
    var rows := EmbedBatch(ImagesOf(kept), embed);
    assert ExpectedBuild(listing, load, embed, priceDraw)
      == IndexWritten(|rows[0]|, rows, Records(PathsOf(kept), priceDraw));
    RecordsAt(PathsOf(kept), priceDraw);
  }

  /** Record i's price is the price tag of the i-th draw, a number from 20 to 199; by
      `PriceReadsBack` its digits read back as that number. */
  lemma RecordPricesInRange(paths: seq<Path>, priceDraw: nat -> Draw, i: nat)
    requires i < |paths|
    ensures Records(paths, priceDraw)[i].price == Price(priceDraw(i))
    ensures 20 <= priceDraw(i) < 200
  {
    RecordsAt(paths, priceDraw);
  }

  // ---------------------------------------------------------------------------------
  // Facts used by the loop

  lemma ImagesOfAppend<I>(a: seq<Loaded<I>>, b: seq<Loaded<I>>)
    requires forall i :: 0 <= i < |a| ==> a[i].image.Some?
    requires forall i :: 0 <= i < |b| ==> b[i].image.Some?
    ensures ImagesOf(a + b) == ImagesOf(a) + ImagesOf(b)
    ensures PathsOf(a + b) == PathsOf(a) + PathsOf(b)
  {
  }

  lemma EmbedBatchAppend<I>(a: seq<I>, b: seq<I>, embed: I -> Row)
    ensures EmbedBatch(a + b, embed) == EmbedBatch(a, embed) + EmbedBatch(b, embed)
  {
  }

  /** Stacking one more batch puts its rows after all earlier rows, in their order. */
  lemma StackSnoc(blocks: seq<seq<Row>>, block: seq<Row>)
    ensures Stack(blocks + [block]) == Stack(blocks) + block
  {
    assert (blocks + [block])[..|blocks|] == blocks;
  }

  lemma SurvivorsSplit<I>(loaded: seq<Loaded<I>>, start: nat, end: nat)
    requires start <= end <= |loaded|
    ensures Survivors(loaded[..end]) == Survivors(loaded[..start]) + Survivors(loaded[start..end])
  {
    assert loaded[..end] == loaded[..start] + loaded[start..end];
    FilterAppend(loaded[..start], loaded[start..end], LoadedOk);
  }

  /** Appending one collated batch's rows to the stacked features keeps them equal to the
      embeddings of all survivors so far. */
  lemma FeaturesStep<I>(features: seq<seq<Row>>, before: seq<Loaded<I>>, batch: seq<Loaded<I>>,
                        embed: I -> Row)
    requires forall i :: 0 <= i < |before| ==> before[i].image.Some?
    requires Stack(features) == EmbedBatch(ImagesOf(before), embed)
    requires Collate(batch).Batch?
    ensures Stack(features + [EmbedBatch(Collate(batch).images, embed)])
      == EmbedBatch(ImagesOf(before + Survivors(batch)), embed)
    ensures PathsOf(before + Survivors(batch)) == PathsOf(before) + Collate(batch).paths
  {
    ImagesOfAppend(before, Survivors(batch));
    EmbedBatchAppend(ImagesOf(before), Collate(batch).images, embed);
    StackSnoc(features, EmbedBatch(Collate(batch).images, embed));
  }

  lemma RecordsSnoc(prefix: seq<Path>, paths: seq<Path>, j: nat, priceDraw: nat -> Draw)
    requires j < |paths|
    ensures Records(prefix + paths[..j + 1], priceDraw)
      == Records(prefix + paths[..j], priceDraw)
         + [MakeRecord(|prefix| + j, paths[j], priceDraw(|prefix| + j))]
  {
    assert prefix + paths[..j + 1] == (prefix + paths[..j]) + [paths[j]];
    RecordsAppend(prefix + paths[..j], paths[j], priceDraw);
  }

  /** What the loop has built after the survivors `kept`: their stacked embeddings, their
      records, and a non-empty feature list exactly when some image survived. */
  ghost predicate BuiltSoFar<I>(features: seq<seq<Row>>, metadata: seq<Record>,
                                kept: seq<Loaded<I>>, embed: I -> Row, priceDraw: nat -> Draw)
  {
    && (forall i :: 0 <= i < |kept| ==> kept[i].image.Some?)
    && Stack(features) == EmbedBatch(ImagesOf(kept), embed)
    && metadata == Records(PathsOf(kept), priceDraw)
    && (features == [] <==> kept == [])
  }

  /** One pass of the outer loop keeps `BuiltSoFar`, whether or not the batch collates. */
  lemma BatchStep<I>(features: seq<seq<Row>>, metadata: seq<Record>, before: seq<Loaded<I>>,
                     batch: seq<Loaded<I>>, embed: I -> Row, priceDraw: nat -> Draw)
    requires BuiltSoFar(features, metadata, before, embed, priceDraw)
    ensures Collate(batch).NoBatch? ==>
      BuiltSoFar(features, metadata, before + Survivors(batch), embed, priceDraw)
    ensures Collate(batch).Batch? ==>
      BuiltSoFar(features + [EmbedBatch(Collate(batch).images, embed)],
                 Records(PathsOf(before) + Collate(batch).paths, priceDraw),
                 before + Survivors(batch), embed, priceDraw)
  {
    if Collate(batch).Batch? {
      FeaturesStep(features, before, batch, embed);
    } else {
      assert Survivors(batch) == [];
      assert before + Survivors(batch) == before;
    }
  }

  // ---------------------------------------------------------------------------------
  // The build

  /** `metadata.append({...})` for one path: the new record's id is `len(metadata)`. */
  method AppendRecord(metadata: seq<Record>, ghost seen: seq<Path>, path: Path,
                      priceDraw: nat -> Draw)
    returns (extended: seq<Record>)
    requires metadata == Records(seen, priceDraw)
    ensures extended == Records(seen + [path], priceDraw)
  {
    var id := |metadata|;
    RecordsAppend(seen, path, priceDraw);
    extended := metadata + [MakeRecord(id, path, priceDraw(id))];
  }

  /** The inner loop over one batch's paths: one record per path, the ids continuing from
      the records already there, so the metadata stays that of all paths seen so far. */
  method AppendRecords(metadata: seq<Record>, ghost seen: seq<Path>, paths: seq<Path>,
                       priceDraw: nat -> Draw)
    returns (extended: seq<Record>)
    requires metadata == Records(seen, priceDraw)
    ensures extended == Records(seen + paths, priceDraw)
  {
    extended := metadata;
    ghost var done := seen;
    var j := 0;
    while j < |paths|
      invariant 0 <= j <= |paths|
      invariant done == seen + paths[..j]
      invariant extended == Records(done, priceDraw)
    {
      extended := AppendRecord(extended, done, paths[j], priceDraw);
      assert paths[..j + 1] == paths[..j] + [paths[j]];
      done := done + [paths[j]];
      j := j + 1;
    }
    assert paths[..j] == paths;
  }

  lemma ExpectedFromUnfolds<I(!new)>(candidates: seq<Path>, load: Path -> Option<I>,
                                     embed: I -> Row, dim: nat, priceDraw: nat -> Draw)
    requires FixedWidth(embed, dim)
    ensures var kept := Survivors(LoadAll(candidates, load));
      ExpectedFrom(candidates, load, embed, priceDraw)
        == if kept == [] then IndexingFailed
           else IndexWritten(dim, EmbedBatch(ImagesOf(kept), embed), Records(PathsOf(kept), priceDraw))
  {
    var kept := Survivors(LoadAll(candidates, load));
    if kept != [] {
      var rows := EmbedBatch(ImagesOf(kept), embed);
      assert rows[0] == embed(ImagesOf(kept)[0]);
      assert |rows[0]| == dim;
    }
  }

  /** One pass of the batch loop: a batch that collates to nothing is skipped without
      calling the extractor; otherwise its rows are appended to the feature list and one
      record per surviving path to the metadata. */
  method ProcessBatch<I>(features: seq<seq<Row>>, metadata: seq<Record>,
                         ghost loaded: seq<Loaded<I>>, ghost start: nat, ghost end: nat,
                         batch: seq<Loaded<I>>, embed: I -> Row, priceDraw: nat -> Draw)
    returns (features': seq<seq<Row>>, metadata': seq<Record>)
    requires start <= end <= |loaded| && batch == loaded[start..end]
    requires BuiltSoFar(features, metadata, Survivors(loaded[..start]), embed, priceDraw)
    ensures BuiltSoFar(features', metadata', Survivors(loaded[..end]), embed, priceDraw)
    ensures Collate(batch).NoBatch? ==> features' == features && metadata' == metadata
    ensures Collate(batch).Batch? ==>
      features' == features + [EmbedBatch(Collate(batch).images, embed)]
  {
    ghost var before := Survivors(loaded[..start]);
    SurvivorsSplit(loaded, start, end);
    BatchStep(features, metadata, before, batch, embed, priceDraw);
    var collated := Collate(batch);
    if collated.Batch? {
      var rows := EmbedBatch(collated.images, embed);
      features' := features + [rows];
      metadata' := AppendRecords(metadata, PathsOf(before), collated.paths, priceDraw);
    } else {
      features', metadata' := features, metadata;
    }
  }

  /** `build_index_batched(image_dir, batch_size=batchSize)`, given the directory listing:
      the extension filter and the early return, then the batch loop over the candidates.
      The result is the same for every batch size: it is `ExpectedBuild`. */
  method BuildIndexBatched<I(!new)>(listing: seq<Path>, batchSize: nat, load: Path -> Option<I>,
                                    embed: I -> Row, dim: nat, priceDraw: nat -> Draw)
    returns (outcome: BuildOutcome)
    requires batchSize > 0
    requires FixedWidth(embed, dim)
    ensures outcome == ExpectedBuild(listing, load, embed, priceDraw)
  {
    var candidates := SelectImages(listing);
    if candidates == [] {
      return NoImagesFound;
    }
    outcome := IndexCandidates(candidates, batchSize, load, embed, dim, priceDraw);
  }

  /** The `for` loop over the `DataLoader`'s batches of the candidates (`shuffle=False`),
      followed by the write guard. */
  method IndexCandidates<I(!new)>(candidates: seq<Path>, batchSize: nat, load: Path -> Option<I>,
                                  embed: I -> Row, dim: nat, priceDraw: nat -> Draw)
    returns (outcome: BuildOutcome)
    requires batchSize > 0
    requires FixedWidth(embed, dim)
    ensures outcome == ExpectedFrom(candidates, load, embed, priceDraw)
  {
    ghost var loaded := LoadAll(candidates, load);
    var n := |candidates|;
    var features: seq<seq<Row>> := [];
    var metadata: seq<Record> := [];
    var start := 0;
    while start < n
      invariant 0 <= start <= n
      invariant BuiltSoFar(features, metadata, Survivors(loaded[..start]), embed, priceDraw)
      decreases n - start
    {
      var end := if start + batchSize < n then start + batchSize else n;
      var batch := LoadRange(candidates, start, end, load);
      features, metadata := ProcessBatch(features, metadata, loaded, start, end, batch,
                                         embed, priceDraw);
      start := end;
    }
    assert loaded[..n] == loaded;
    outcome := WriteOutcome(features, metadata, candidates, load, embed, dim, priceDraw);
  }

  /** The final write guard: "Indexing failed." when no feature was produced; otherwise the
      stacked rows go into a fresh index of their dimension, next to the metadata. */
  method WriteOutcome<I(!new)>(features: seq<seq<Row>>, metadata: seq<Record>,
                               candidates: seq<Path>, load: Path -> Option<I>, embed: I -> Row,
                               dim: nat, priceDraw: nat -> Draw)
    returns (outcome: BuildOutcome)
    requires FixedWidth(embed, dim)
    requires BuiltSoFar(features, metadata, Survivors(LoadAll(candidates, load)), embed, priceDraw)
    ensures outcome == ExpectedFrom(candidates, load, embed, priceDraw)
  {
    ghost var kept := Survivors(LoadAll(candidates, load));
    ExpectedFromUnfolds(candidates, load, embed, dim, priceDraw);
    if features == [] {
      return IndexingFailed;
    }
    var matrix := Stack(features);
    ghost var images := ImagesOf(kept);
    assert matrix == EmbedBatch(images, embed);
    forall i | 0 <= i < |matrix|
      ensures |matrix[i]| == dim
    {
      assert matrix[i] == embed(images[i]);
    }
    assert |matrix| == |kept| > 0;
    var index := new FlatL2Index(|matrix[0]|);
    index.Add(matrix);
    return IndexWritten(index.dimension, index.vectors, metadata);
  }
}
