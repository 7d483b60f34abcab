/** The `generate` command: the rarity catalog built from the layer
    directories, the assembly of one candidate asset, and the collection loop
    that rejects duplicate candidates with a bounded number of retries. */
module Generate {
  import opened Errors
  import opened Strings
  import opened Paths
  import opened Sampling
  import opened Assets

  /** Duplicates a slot tolerates before the run gives up: a slot makes at
      most `MaxRetries + 1` calls to `GenAsset`. */
  const MaxRetries: nat := 10

  /** One trait file of a category and its rarity weight (a `u128`). */
  datatype Layer = Layer(file: string, weight: nat)

  /** `rarity_tracker`: one list of layers per category, base category first. */
  type Catalog = seq<seq<Layer>>

  /** One entry of the root directory: the category directory's name and the
      names `read_dir` lists inside it, in listing order. */
  datatype Subdir = Subdir(name: string, files: seq<string>)

  /** The thread RNG: `rng(call, k)` is the random number that the `call`-th
      `GenAsset` of a run draws for category `k`. */
  type Rng = (nat, nat) -> nat

  /** How a drawn file's trait is cut from its path: `Assets.TraitOf` in
      the generator. The assembly is proved for any such cut. */
  type Labeller = string -> Option<Trait>

  /** The identifying key of an asset: the set of its chosen files. */
  type Key = set<string>

  datatype Asset = Asset(layers: Key, canvas: Canvas, metadata: Metadata)

  /** A persisted asset: the image and metadata written under `id`. */
  datatype Record = Record(id: nat, asset: Asset)

  // ---------------------------------------------------------------------
  // The catalog

  predicate SortedByName(ds: seq<Subdir>)
  {
    forall i, j :: 0 <= i < j < |ds| ==> LexLe(ds[i].name, ds[j].name)
  }

  /** An entry whose name sorts before every name of a sorted list can go
      in front of it. */
  lemma {:induction false} ConsSorted(d: Subdir, ds: seq<Subdir>)
    requires SortedByName(ds) && forall j :: 0 <= j < |ds| ==> LexLe(d.name, ds[j].name)
    ensures SortedByName([d] + ds)
  {
    var r := [d] + ds;
    forall i, j | 0 <= i < j < |r| ensures LexLe(r[i].name, r[j].name) {
      assert r[j] == ds[j - 1];
      if i > 0 { assert r[i] == ds[i - 1]; }
    }
  }

  /** A name at most the first of a sorted list is at most all of them. */
  lemma {:induction false} BelowFirst(d: Subdir, ds: seq<Subdir>)
    requires SortedByName(ds) && |ds| > 0 && LexLe(d.name, ds[0].name)
    ensures forall j :: 0 <= j < |ds| ==> LexLe(d.name, ds[j].name)
  {
    forall j | 0 < j < |ds| ensures LexLe(d.name, ds[j].name) {
      LexLeTransitive(d.name, ds[0].name, ds[j].name);
    }
  }

  /** A bound on every element of two lists bounds every element of any
      list with their elements. */
  lemma {:induction false} BelowMerged(x: string, d: Subdir, ds: seq<Subdir>, rest: seq<Subdir>)
    requires multiset(rest) == multiset(ds) + multiset{d}
    requires LexLe(x, d.name) && forall j :: 0 <= j < |ds| ==> LexLe(x, ds[j].name)
    ensures forall j :: 0 <= j < |rest| ==> LexLe(x, rest[j].name)
  {
    forall j | 0 <= j < |rest| ensures LexLe(x, rest[j].name) {
      assert rest[j] in multiset(rest);
      assert rest[j] == d || rest[j] in ds;
    }
  }

  function InsertByName(d: Subdir, ds: seq<Subdir>): (r: seq<Subdir>)
    requires SortedByName(ds)
    ensures SortedByName(r) && multiset(r) == multiset(ds) + multiset{d}
  {
    if |ds| == 0 || LexLe(d.name, ds[0].name) then
      assert forall j :: 0 <= j < |ds| ==> LexLe(d.name, ds[j].name) by {
        if |ds| > 0 { BelowFirst(d, ds); }
      }
      ConsSorted(d, ds);
      [d] + ds
    else
      LexLeTotal(d.name, ds[0].name);
      var tail := ds[1..];
      assert SortedByName(tail);
      var rest := InsertByName(d, tail);
      assert ds == [ds[0]] + tail;
      assert forall j :: 0 <= j < |tail| ==> LexLe(ds[0].name, tail[j].name) by {
        forall j | 0 <= j < |tail| ensures LexLe(ds[0].name, tail[j].name) { assert tail[j] == ds[j + 1]; }
      }
      BelowMerged(ds[0].name, d, tail, rest);
      ConsSorted(ds[0], rest);
      [ds[0]] + rest
  }

  /** `subdirs.sort_by_key(|dir| dir.path())`. All entries share the root, so
      comparing their paths compares their names. */
  function SortByName(ds: seq<Subdir>): (r: seq<Subdir>)
    ensures SortedByName(r) && multiset(r) == multiset(ds)
  {
    if |ds| == 0 then []
    else
      assert ds == [ds[0]] + ds[1..];
      InsertByName(ds[0], SortByName(ds[1..]))
  }

  /** The path of the `j`-th file listed in category directory `dir` under `root`. */
  function LayerPath(root: string, dir: Subdir, j: nat): string
    requires j < |dir.files|
  {
    Join(Join(root, dir.name), dir.files[j])
  }

  /** The rarity weight of a trait file: the first two characters of its stem
      read as a `u128`. */
  function WeightOf(file: string): (w: Option<nat>)
    ensures w.Some? ==> w.value <= 99
  {
    match FileStem(file)
    case None => None
    case Some(stem) =>
      if |stem| < 2 then None
      else
        TwoCharParse(stem[..2]);
        ParseU128(stem[..2])
  }

  /** The weight of a listed file depends only on its entry name. */
  lemma WeightOfEntry(dir: string, name: string)
    requires IsEntryName(name)
    ensures WeightOf(Join(dir, name)) == WeightOf(name)
  {
    EntryStem(dir, name);
  }

  /** A listed file named `<stem>.<ext>` has a weight exactly when its stem
      starts with two digits or with `+` and a digit; the weight is then the
      value of those characters: `01Cyan.png` weighs 1, `+5Cyan.png` weighs
      5 (`u128` parsing accepts a leading plus sign) and `7Cyan.png` has no
      weight. */
  lemma WeightOfFile(dir: string, stem: string, ext: string)
    requires IsEntryName(stem + "." + ext) && '.' !in ext && stem != ""
    ensures WeightOf(Join(dir, stem + "." + ext)).Some? <==>
              |stem| >= 2 && (IsDigit(stem[0]) || stem[0] == '+') && IsDigit(stem[1])
    ensures WeightOf(Join(dir, stem + "." + ext)).Some? ==>
              WeightOf(Join(dir, stem + "." + ext)).value ==
                if stem[0] == '+' then DigitValue(stem[1]) else 10 * DigitValue(stem[0]) + DigitValue(stem[1])
  {
    StemBeforeDot(stem, ext);
    WeightOfEntry(dir, stem + "." + ext);
    if |stem| >= 2 {
      TwoCharParse(stem[..2]);
    }
  }

  /** `l` is the layer read from the `j`-th file of `dir`. */
  predicate IsLayerOf(root: string, dir: Subdir, j: nat, l: Layer)
    requires j < |dir.files|
  {
    l.file == LayerPath(root, dir, j) && WeightOf(l.file) == Some(l.weight)
  }

  /** `layers` is the category built from `dir`: one layer per listed file, in
      listing order, each with its path and weight. */
  predicate IsCategoryOf(root: string, dir: Subdir, layers: seq<Layer>)
  {
    |layers| == |dir.files| && forall j :: 0 <= j < |layers| ==> IsLayerOf(root, dir, j, layers[j])
  }

  predicate IsCatalogOf(root: string, dirs: seq<Subdir>, catalog: Catalog)
  {
    |catalog| == |dirs| && forall k :: 0 <= k < |dirs| ==> IsCategoryOf(root, dirs[k], catalog[k])
  }

  predicate CategoryWeighted(root: string, dir: Subdir)
  {
    forall j :: 0 <= j < |dir.files| ==> WeightOf(LayerPath(root, dir, j)).Some?
  }

  predicate AllWeighted(root: string, dirs: seq<Subdir>)
  {
    forall k :: 0 <= k < |dirs| ==> CategoryWeighted(root, dirs[k])
  }

  /** A weighted file's stem starts with two ASCII characters, so cutting
      the weight prefix off it for the label never panics and drops exactly
      those two characters. */
  lemma WeightedStemStrips(file: string)
    requires WeightOf(file).Some?
    ensures FileStem(file).Some? && |FileStem(file).value| >= 2
    ensures StripWeight(FileStem(file).value) == Some(FileStem(file).value[2..])
  {
    var stem := FileStem(file).value;
    TwoCharParse(stem[..2]);
    assert stem[..2][0] == stem[0] && stem[..2][1] == stem[1];
    StripAsciiPrefix(stem);
  }

  /** The trait of a layer of a built catalog: its value is the file's stem
      after the two weight characters, and it exists exactly when the
      category directory's stem can lose its own prefix, which names the
      trait type. */
  lemma CatalogTraits(root: string, dirs: seq<Subdir>, catalog: Catalog, k: nat, j: nat)
    requires IsCatalogOf(root, dirs, catalog) && k < |dirs| && j < |dirs[k].files|
    requires IsEntryName(dirs[k].name) && IsEntryName(dirs[k].files[j])
    ensures FileStem(dirs[k].name).Some? && FileStem(dirs[k].files[j]).Some? && j < |catalog[k]|
    ensures |FileStem(dirs[k].files[j]).value| >= 2
    ensures var t := TraitOf(catalog[k][j].file);
            var dirLabel := StripWeight(FileStem(dirs[k].name).value);
            && (t.Some? <==> dirLabel.Some?)
            && (t.Some? ==> t.value == Trait(dirLabel.value, FileStem(dirs[k].files[j]).value[2..]))
  {
    var dir := dirs[k];
    assert IsCategoryOf(root, dir, catalog[k]);
    assert IsLayerOf(root, dir, j, catalog[k][j]);
    var file := catalog[k][j].file;
    TraitOfEntry(root, dir.name, dir.files[j]);
    EntryStem(Join(root, dir.name), dir.files[j]);
    WeightedStemStrips(file);
  }

  /** The inner loop of the catalog build: the layers of one category
      directory, failing on the first file without a weight. */
  method BuildCategory(root: string, dir: Subdir) returns (r: Result<seq<Layer>>)
    ensures r.Ok? <==> CategoryWeighted(root, dir)
    ensures r.Ok? ==> IsCategoryOf(root, dir, r.value)
    ensures r.Err? ==> r.error.InvalidWeight? && WeightOf(r.error.file).None?
  {
    var category: seq<Layer> := [];
    var j := 0;
    while j < |dir.files|
      invariant 0 <= j <= |dir.files| && |category| == j
      invariant forall j' :: 0 <= j' < j ==> IsLayerOf(root, dir, j', category[j'])
    {
      var file := LayerPath(root, dir, j);
      var weight := WeightOf(file);
      if weight.None? {
        return Err(InvalidWeight(file));
      }
      category := category + [Layer(file, weight.value)];
      j := j + 1;
    }
    forall j' | 0 <= j' < |dir.files|
      ensures WeightOf(LayerPath(root, dir, j')).Some?
    {
      assert IsLayerOf(root, dir, j', category[j']);
    }
    return Ok(category);
  }

  /** The first half of `Generate::run`: sort the category directories and
      read every file's weight, failing on the first file without one. */
  method BuildCatalog(root: string, subdirs: seq<Subdir>) returns (r: Result<Catalog>)
    ensures r.Ok? <==> AllWeighted(root, SortByName(subdirs))
    ensures r.Ok? ==> IsCatalogOf(root, SortByName(subdirs), r.value)
    ensures r.Err? ==> r.error.InvalidWeight? && WeightOf(r.error.file).None?
  {
    var dirs := SortByName(subdirs);
    var catalog: Catalog := [];
    var k := 0;
    while k < |dirs|
      invariant 0 <= k <= |dirs| && |catalog| == k
      invariant forall k' :: 0 <= k' < k ==> CategoryWeighted(root, dirs[k']) && IsCategoryOf(root, dirs[k'], catalog[k'])
    {
      var category := BuildCategory(root, dirs[k]);
      if category.Err? {
        return Err(category.error);
      }
      catalog := catalog + [category.value];
      k := k + 1;
    }
    return Ok(catalog);
  }

  // ---------------------------------------------------------------------
  // One candidate asset

  function Weights(layers: seq<Layer>): (ws: seq<nat>)
    ensures |ws| == |layers| && forall i :: 0 <= i < |layers| ==> ws[i] == layers[i].weight
  {
    seq(|layers|, i requires 0 <= i < |layers| => layers[i].weight)
  }

  /** `WeightedAliasIndex::new` accepts the weights of category `k`. */
  predicate HasDistribution(catalog: Catalog, k: nat)
    requires k < |catalog|
  {
    Samplable(Weights(catalog[k]))
  }

  /** The file drawn from category `k` by the `call`-th `GenAsset`. */
  function Chosen(catalog: Catalog, rng: Rng, call: nat, k: nat): string
    requires k < |catalog| && HasDistribution(catalog, k)
  {
    catalog[k][Sample(Weights(catalog[k]), rng(call, k))].file
  }

  /** What the `call`-th `GenAsset` does in category `k`: build the
      distribution, draw a file and cut its labels, or fail at the first of
      these steps that panics. */
  function DrawOne(catalog: Catalog, rng: Rng, cut: Labeller, call: nat, k: nat): Result<(string, Trait)>
    requires k < |catalog|
  {
    if !HasDistribution(catalog, k) then Err(EmptyDistribution(k))
    else
      var file := Chosen(catalog, rng, call, k);
      match cut(file)
      case None => Err(InvalidLabel(file))
      case Some(t) => Ok((file, t))
  }

  /** What a draw means: category `k` fails with `EmptyDistribution` exactly
      when `WeightedAliasIndex::new` rejects its weights, and otherwise fails
      only on the drawn file's labels; a successful draw is a file of
      category `k` whose weight is positive, with the trait cut from it. */
  lemma DrawOneSpec(catalog: Catalog, rng: Rng, cut: Labeller, call: nat, k: nat)
    requires k < |catalog|
    ensures DrawOne(catalog, rng, cut, call, k) == Err(EmptyDistribution(k)) <==> !Samplable(Weights(catalog[k]))
    ensures DrawOne(catalog, rng, cut, call, k).Err? && Samplable(Weights(catalog[k])) ==>
      exists j :: 0 <= j < |catalog[k]| && catalog[k][j].weight > 0 && cut(catalog[k][j].file).None? &&
                  DrawOne(catalog, rng, cut, call, k) == Err(InvalidLabel(catalog[k][j].file))
    ensures DrawOne(catalog, rng, cut, call, k).Ok? ==>
      exists j :: 0 <= j < |catalog[k]| && catalog[k][j].weight > 0 &&
                  DrawOne(catalog, rng, cut, call, k).value.0 == catalog[k][j].file &&
                  cut(catalog[k][j].file) == Some(DrawOne(catalog, rng, cut, call, k).value.1)
  {
  }

  /** The files drawn from a run of categories, in category order, and the
      traits cut from them. */
  datatype Draws = Draws(files: seq<string>, traits: seq<Trait>)

  /** The draws of the first `k` categories, or the failure of the first of
      them that fails. */
  function DrawUpTo(catalog: Catalog, rng: Rng, cut: Labeller, call: nat, k: nat): (r: Result<Draws>)
    requires k <= |catalog|
    ensures r.Ok? ==> |r.value.files| == k && |r.value.traits| == k
  {
    if k == 0 then Ok(Draws([], []))
    else
      match DrawUpTo(catalog, rng, cut, call, k - 1)
      case Err(e) => Err(e)
      case Ok(d) =>
        match DrawOne(catalog, rng, cut, call, k - 1)
        case Err(e) => Err(e)
        case Ok(ft) => Ok(Draws(d.files + [ft.0], d.traits + [ft.1]))
  }

  /** The draws of the first `k` categories are what each of them drew, and
      their failure is that of the first category that fails. */
  lemma {:induction false} DrawUpToSpec(catalog: Catalog, rng: Rng, cut: Labeller, call: nat, k: nat)
    requires k <= |catalog|
    ensures DrawUpTo(catalog, rng, cut, call, k).Ok? ==> forall j :: 0 <= j < k ==>
      DrawOne(catalog, rng, cut, call, j) ==
      Ok((DrawUpTo(catalog, rng, cut, call, k).value.files[j], DrawUpTo(catalog, rng, cut, call, k).value.traits[j]))
    ensures DrawUpTo(catalog, rng, cut, call, k).Err? ==>
      exists j :: 0 <= j < k && DrawOne(catalog, rng, cut, call, j) == Err(DrawUpTo(catalog, rng, cut, call, k).error) &&
                  (forall j' :: 0 <= j' < j ==> DrawOne(catalog, rng, cut, call, j').Ok?)
  {
    if k > 0 {
      DrawUpToSpec(catalog, rng, cut, call, k - 1);
      var prev := DrawUpTo(catalog, rng, cut, call, k - 1);
      var r := DrawUpTo(catalog, rng, cut, call, k);
      if prev.Ok? && r.Ok? {
        forall j | 0 <= j < k
          ensures DrawOne(catalog, rng, cut, call, j) == Ok((r.value.files[j], r.value.traits[j]))
        {
          if j < k - 1 {
            assert r.value.files[j] == prev.value.files[j] && r.value.traits[j] == prev.value.traits[j];
          }
        }
      }
    }
  }

  /** Once a category fails, every longer run of categories fails with it. */
  lemma {:induction false} DrawUpToErrPersists(catalog: Catalog, rng: Rng, cut: Labeller, call: nat, k: nat, k': nat)
    requires k <= k' <= |catalog| && DrawUpTo(catalog, rng, cut, call, k).Err?
    decreases k' - k
    ensures DrawUpTo(catalog, rng, cut, call, k') == DrawUpTo(catalog, rng, cut, call, k)
  {
    if k < k' {
      DrawUpToErrPersists(catalog, rng, cut, call, k, k' - 1);
    }
  }

  /** The `BTreeSet` of the given files, as its ascending listing. */
  function Listing(fs: seq<string>): (r: seq<string>)
    ensures StrictlyAscending(r)
    ensures forall f :: f in r <==> f in fs
  {
    if |fs| == 0 then []
    else
      var init := fs[..|fs| - 1];
      assert forall f :: f in fs <==> f in init || f == fs[|fs| - 1] by {
        assert fs == init + [fs[|fs| - 1]];
      }
      SetInsert(Listing(init), fs[|fs| - 1])
  }

  /** The asset assembled from the draws of every category (base first)
      under `id`: its key holds every drawn file; its canvas is the base
      image with the other files overlaid in ascending order; its metadata
      lists the traits of the later categories in order and the base's last. */
  function AssetOf(d: Draws, id: nat): Asset
    requires |d.files| == |d.traits| > 0
  {
    Asset((set f | f in d.files),
          Canvas(d.files[0], Listing(d.files[1..])),
          Metadata(AssetName(id), Description, ImageUri("ipfs", id), d.traits[1..] + [d.traits[0]]))
  }

  /** What the `call`-th `gen_asset` yields under `id`: the first failure
      met, or the asset of the drawn files. */
  function Assembled(catalog: Catalog, rng: Rng, cut: Labeller, call: nat, id: nat): Result<Asset>
  {
    if |catalog| == 0 then Err(NoLayers)
    else
      match DrawUpTo(catalog, rng, cut, call, |catalog|)
      case Err(e) => Err(e)
      case Ok(d) => Ok(AssetOf(d, id))
  }

  /** `a` is what `gen_asset` promises for the files `files` drawn per
      category (base first) with traits `traits`, under `id`. */
  ghost predicate IsAssetOf(files: seq<string>, traits: seq<Trait>, id: nat, a: Asset)
    requires |files| == |traits| > 0
  {
    var n := |files|;
    && (forall f :: f in a.layers <==> f in files)
    && a.canvas.base == files[0]
    && StrictlyAscending(a.canvas.overlays)
    && (forall f :: f in a.canvas.overlays <==> f in files[1..])
    && a.metadata.name == AssetName(id)
    && a.metadata.description == Description
    && a.metadata.image == ImageUri("ipfs", id)
    && |a.metadata.attributes| == n
    && (forall k :: 1 <= k < n ==> a.metadata.attributes[k - 1] == traits[k])
    && a.metadata.attributes[n - 1] == traits[0]
  }

  /** No file is drawn twice. */
  predicate Distinct(files: seq<string>)
  {
    forall i, j :: 0 <= i < j < |files| ==> files[i] != files[j]
  }

  lemma {:induction false} DistinctCardinality(files: seq<string>)
    requires Distinct(files)
    ensures |(set f | f in files)| == |files|
  {
    if |files| > 0 {
      var init := files[..|files| - 1];
      var last := files[|files| - 1];
      assert Distinct(init);
      DistinctCardinality(init);
      assert (set f | f in files) == (set f | f in init) + {last} by {
        assert files == init + [last];
      }
      assert last !in init;
    }
  }

  /** The asset assembled from draws meets `IsAssetOf`; when no file is drawn
      twice, its key has one file per category and the base is never
      overlaid. */
  lemma AssetOfSpec(d: Draws, id: nat)
    requires |d.files| == |d.traits| > 0
    ensures IsAssetOf(d.files, d.traits, id, AssetOf(d, id))
    ensures Distinct(d.files) ==> |AssetOf(d, id).layers| == |d.files|
    ensures Distinct(d.files) ==> d.files[0] !in AssetOf(d, id).canvas.overlays
  {
    if Distinct(d.files) {
      DistinctCardinality(d.files);
    }
  }

  /** The overlay order is the ascending order of the later categories'
      files, whatever order they were drawn in. */
  lemma OverlayOrder(d: Draws, id: nat, order: seq<string>)
    requires |d.files| == |d.traits| > 0
    requires StrictlyAscending(order) && forall f :: f in order <==> f in d.files[1..]
    ensures AssetOf(d, id).canvas.overlays == order
  {
    AscendingListingUnique(Listing(d.files[1..]), order);
  }

  /** `e` is the failure of the first category that fails. */
  predicate IsFirstFault(catalog: Catalog, rng: Rng, cut: Labeller, call: nat, e: Failure)
  {
    || (|catalog| == 0 && e == NoLayers)
    || exists k :: 0 <= k < |catalog| && DrawOne(catalog, rng, cut, call, k) == Err(e) &&
                   (forall k' :: 0 <= k' < k ==> DrawOne(catalog, rng, cut, call, k').Ok?)
  }

  /** What `gen_asset` promises: it succeeds exactly when there is a category
      and every category draws a labelled file; the asset then holds the file
      drawn from each category and its traits as `IsAssetOf` says; otherwise
      it fails as the first failing category does. */
  lemma AssembledSpec(catalog: Catalog, rng: Rng, cut: Labeller, call: nat, id: nat)
    ensures Assembled(catalog, rng, cut, call, id).Ok? <==>
      |catalog| > 0 && forall k :: 0 <= k < |catalog| ==> DrawOne(catalog, rng, cut, call, k).Ok?
    ensures Assembled(catalog, rng, cut, call, id).Ok? ==>
      && DrawUpTo(catalog, rng, cut, call, |catalog|).Ok?
      && IsAssetOf(DrawUpTo(catalog, rng, cut, call, |catalog|).value.files,
                   DrawUpTo(catalog, rng, cut, call, |catalog|).value.traits,
                   id, Assembled(catalog, rng, cut, call, id).value)
    ensures Assembled(catalog, rng, cut, call, id).Err? ==>
      IsFirstFault(catalog, rng, cut, call, Assembled(catalog, rng, cut, call, id).error)
  {
    if |catalog| > 0 {
      DrawUpToSpec(catalog, rng, cut, call, |catalog|);
      var r := DrawUpTo(catalog, rng, cut, call, |catalog|);
      if r.Ok? {
        AssetOfSpec(r.value, id);
      }
    }
  }

  /** The last loop of `gen_asset`: overlay each file onto the canvas in
      order, collecting it, with the canvas's base, in the asset's key. */
  method OverlayAll(canvas: Canvas, tops: seq<string>) returns (c: Canvas, layers: Key)
    ensures c == Canvas(canvas.base, canvas.overlays + tops)
    ensures forall f :: f in layers <==> f == canvas.base || f in tops
  {
    c, layers := canvas, {canvas.base};
    var i := 0;
    while i < |tops|
      invariant 0 <= i <= |tops|
      invariant c == Canvas(canvas.base, canvas.overlays + tops[..i])
      invariant forall f :: f in layers <==> f == canvas.base || f in tops[..i]
    {
      assert tops[..i + 1] == tops[..i] + [tops[i]];
      c := c.Overlay(tops[i]);
      layers := layers + {tops[i]};
      i := i + 1;
    }
    assert tops[..i] == tops;
  }

  /** One category's step of `gen_asset`: build the distribution over the
      category's weights, draw a file with it and cut the file's labels. */
  method DrawCategory(catalog: Catalog, rng: Rng, cut: Labeller, call: nat, k: nat) returns (r: Result<(string, Trait)>)
    requires k < |catalog|
    ensures r == DrawOne(catalog, rng, cut, call, k)
  {
    var weights := Weights(catalog[k]);
    if !Samplable(weights) {
      return Err(EmptyDistribution(k));
    }
    var file := catalog[k][Sample(weights, rng(call, k))].file;
    var t := cut(file);
    if t.None? {
      return Err(InvalidLabel(file));
    }
    return Ok((file, t.value));
  }

  /** One more category drawn successfully extends the draws by its file
      and trait. */
  lemma DrawUpToNext(catalog: Catalog, rng: Rng, cut: Labeller, call: nat, k: nat, d: Draws, file: string, t: Trait)
    requires k < |catalog| && DrawUpTo(catalog, rng, cut, call, k) == Ok(d)
    requires DrawOne(catalog, rng, cut, call, k) == Ok((file, t))
    ensures DrawUpTo(catalog, rng, cut, call, k + 1) == Ok(Draws(d.files + [file], d.traits + [t]))
  {
  }

  /** A category that fails after successful ones is the failure of the
      whole assembly. */
  lemma AssembledFails(catalog: Catalog, rng: Rng, cut: Labeller, call: nat, id: nat, k: nat)
    requires k < |catalog| && DrawUpTo(catalog, rng, cut, call, k).Ok?
    requires DrawOne(catalog, rng, cut, call, k).Err?
    ensures Assembled(catalog, rng, cut, call, id) == Err(DrawOne(catalog, rng, cut, call, k).error)
  {
    DrawUpToErrPersists(catalog, rng, cut, call, k + 1, |catalog|);
  }

  /** Draws that reach past the last category make the assembly's asset. */
  lemma AssembledOk(catalog: Catalog, rng: Rng, cut: Labeller, call: nat, id: nat, d: Draws)
    requires |catalog| > 0 && DrawUpTo(catalog, rng, cut, call, |catalog|) == Ok(d)
    ensures Assembled(catalog, rng, cut, call, id) == Ok(AssetOf(d, id))
  {
  }

  /** The asset of draws whose base comes first, put together field by
      field as `gen_asset` does. */
  lemma AssetOfParts(baseFile: string, tops: seq<string>, baseTrait: Trait, traits: seq<Trait>, id: nat,
                     layers: Key, overlays: seq<string>)
    requires |tops| == |traits|
    requires forall f :: f in layers <==> f == baseFile || f in tops
    requires overlays == Listing(tops)
    ensures AssetOf(Draws([baseFile] + tops, [baseTrait] + traits), id) ==
      Asset(layers, Canvas(baseFile, overlays),
            Metadata(AssetName(id), Description, ImageUri("ipfs", id), traits + [baseTrait]))
  {
  }

  /** The end of `gen_asset`: the metadata with the base trait put last,
      and the base image overlaid with the later files in ascending order
      while every file goes into the key. */
  method Compose(baseFile: string, baseTrait: Trait, ghost tops: seq<string>, topLayers: seq<string>,
                 attributes: seq<Trait>, id: nat) returns (a: Asset)
    requires |tops| == |attributes| && topLayers == Listing(tops)
    ensures a == AssetOf(Draws([baseFile] + tops, [baseTrait] + attributes), id)
  {
    var metadata := Metadata(AssetName(id), Description, ImageUri("ipfs", id), attributes + [baseTrait]);
    var canvas, layers := OverlayAll(Canvas(baseFile, []), topLayers);
    assert [] + topLayers == topLayers;
    AssetOfParts(baseFile, tops, baseTrait, attributes, id, layers, topLayers);
    a := Asset(layers, canvas, metadata);
  }

  /** `gen_asset`: draw the base file, then one file per later category,
      collecting the later ones in a `BTreeSet` and their traits in order;
      put the base trait last; overlay the later files on the base image in
      the set's (ascending) order, collecting every file in the key. */
  method GenAsset(catalog: Catalog, rng: Rng, cut: Labeller, call: nat, id: nat) returns (r: Result<Asset>)
    ensures r == Assembled(catalog, rng, cut, call, id)
  {
    if |catalog| == 0 { return Err(NoLayers); }
    var base := DrawCategory(catalog, rng, cut, call, 0);
    assert DrawUpTo(catalog, rng, cut, call, 0) == Ok(Draws([], []));
    if base.Err? {
      AssembledFails(catalog, rng, cut, call, id, 0);
      return Err(base.error);
    }
    var baseFile, baseTrait := base.value.0, base.value.1;
    DrawUpToNext(catalog, rng, cut, call, 0, Draws([], []), baseFile, baseTrait);
    var topLayers: seq<string> := [];
    var attributes: seq<Trait> := [];
    ghost var tops: seq<string> := [];
    assert [] + [baseFile] == [baseFile] + tops && [] + [baseTrait] == [baseTrait] + attributes;
    var k := 1;
    while k < |catalog|
      invariant 1 <= k <= |catalog| && |tops| == |attributes| == k - 1
      invariant DrawUpTo(catalog, rng, cut, call, k) == Ok(Draws([baseFile] + tops, [baseTrait] + attributes))
      invariant topLayers == Listing(tops)
    {
      var drawn := DrawCategory(catalog, rng, cut, call, k);
      if drawn.Err? {
        AssembledFails(catalog, rng, cut, call, id, k);
        return Err(drawn.error);
      }
      var file, t := drawn.value.0, drawn.value.1;
      DrawUpToNext(catalog, rng, cut, call, k, Draws([baseFile] + tops, [baseTrait] + attributes), file, t);
      assert ([baseFile] + tops) + [file] == [baseFile] + (tops + [file]);
      assert ([baseTrait] + attributes) + [t] == [baseTrait] + (attributes + [t]);
      assert (tops + [file])[..|tops|] == tops;
      topLayers := SetInsert(topLayers, file);
      attributes := attributes + [t];
      tops := tops + [file];
      k := k + 1;
    }
    AssembledOk(catalog, rng, cut, call, id, Draws([baseFile] + tops, [baseTrait] + attributes));
    var asset := Compose(baseFile, baseTrait, tops, topLayers, attributes, id);
    r := Ok(asset);
  }


  // ---------------------------------------------------------------------
  // The collection loop

  /** What a run's calls yield: `gen(call, id)` is what the `call`-th
      `GenAsset` of the run returns when it is given `id`. */
  type Generator = (nat, nat) -> Result<Asset>

  /** The calls of `GenAsset` over `catalog` with `rng`. */
  function GenOf(catalog: Catalog, rng: Rng, cut: Labeller): Generator
  {
    (call: nat, id: nat) => Assembled(catalog, rng, cut, call, id)
  }

  /** Why a run stops: every slot filled, a slot out of retries (the panic),
      or a call that fails with `error`. */
  datatype Stop = Finished | RetriesExhausted | GenFailed(call: nat, error: Failure)

  /** A run: the calls whose candidates were accepted and those candidates,
      one per filled slot in slot order, and why it stopped. */
  datatype Trace = Trace(calls: seq<nat>, assets: seq<Asset>, stop: Stop)

  /** The run from call `call` on, against the keys in `generated`, that
      still has `remaining` slots to fill, the first of them with ID `id`
      and already `retries` collisions into it. */
  function RunFrom(gen: Generator, generated: set<Key>, call: nat, id: nat, retries: nat, remaining: nat): Trace
    requires retries <= MaxRetries
    decreases remaining, MaxRetries - retries
  {
    if remaining == 0 then Trace([], [], Finished)
    else
      match gen(call, id)
      case Err(e) => Trace([], [], GenFailed(call, e))
      case Ok(a) =>
        if a.layers !in generated then
          var rest := RunFrom(gen, generated + {a.layers}, call + 1, id + 1, 0, remaining - 1);
          Trace([call] + rest.calls, [a] + rest.assets, rest.stop)
        else if retries == MaxRetries then Trace([], [], RetriesExhausted)
        else RunFrom(gen, generated, call + 1, id, retries + 1, remaining)
  }

  /** The run of a whole collection of `size` assets with IDs from
      `numGenerated` on. */
  function RunTrace(catalog: Catalog, rng: Rng, cut: Labeller, size: nat, numGenerated: nat): Trace
  {
    RunFrom(GenOf(catalog, rng, cut), {}, 0, numGenerated, 0, size)
  }

  /** The shape of a run: it fills at most `remaining` slots, all of them
      exactly when it finishes, with one accepted candidate per accepted
      call. */
  lemma {:induction false} RunFromShape(gen: Generator, generated: set<Key>, call: nat, id: nat, retries: nat, remaining: nat)
    requires retries <= MaxRetries
    decreases remaining, MaxRetries - retries
    ensures |RunFrom(gen, generated, call, id, retries, remaining).calls| ==
            |RunFrom(gen, generated, call, id, retries, remaining).assets|
    ensures |RunFrom(gen, generated, call, id, retries, remaining).calls| <= remaining
    ensures RunFrom(gen, generated, call, id, retries, remaining).stop.Finished? <==>
            |RunFrom(gen, generated, call, id, retries, remaining).calls| == remaining
  {
    if remaining > 0 && gen(call, id).Ok? {
      var a := gen(call, id).value;
      if a.layers !in generated {
        RunFromShape(gen, generated + {a.layers}, call + 1, id + 1, 0, remaining - 1);
      } else if retries < MaxRetries {
        RunFromShape(gen, generated, call + 1, id, retries + 1, remaining);
      }
    }
  }

  /** The calls in `a` start at `call` or later and at most `first` calls
      after it, increase, and each comes at most `MaxRetries + 1` calls
      after the one before it. */
  predicate CallsSpaced(call: nat, first: nat, a: seq<nat>)
  {
    && (|a| > 0 ==> call <= a[0] <= call + first)
    && forall j :: 0 < j < |a| ==> a[j - 1] < a[j] <= a[j - 1] + 1 + MaxRetries
  }

  /** Each slot of a run uses at most `MaxRetries + 1` calls. */
  lemma {:induction false} RunFromSpaced(gen: Generator, generated: set<Key>, call: nat, id: nat, retries: nat, remaining: nat)
    requires retries <= MaxRetries
    decreases remaining, MaxRetries - retries
    ensures CallsSpaced(call, MaxRetries - retries, RunFrom(gen, generated, call, id, retries, remaining).calls)
  {
    if remaining > 0 && gen(call, id).Ok? {
      var a := gen(call, id).value;
      if a.layers !in generated {
        var g := generated + {a.layers};
        RunFromSpaced(gen, g, call + 1, id + 1, 0, remaining - 1);
        var rest := RunFrom(gen, g, call + 1, id + 1, 0, remaining - 1).calls;
        var t := RunFrom(gen, generated, call, id, retries, remaining).calls;
        assert t == [call] + rest;
        forall j | 0 < j < |t|
          ensures t[j - 1] < t[j] <= t[j - 1] + 1 + MaxRetries
        {
          assert t[j] == rest[j - 1];
          if j > 1 {
            assert t[j - 1] == rest[j - 2];
          }
        }
      } else if retries < MaxRetries {
        RunFromSpaced(gen, generated, call + 1, id, retries + 1, remaining);
      }
    }
  }

  /** The `j`-th accepted candidate is what its call returned for the `j`-th
      ID. */
  predicate AssetsFromCalls(gen: Generator, id: nat, t: Trace)
  {
    && |t.assets| == |t.calls|
    && forall j :: 0 <= j < |t.calls| ==> gen(t.calls[j], id + j) == Ok(t.assets[j])
  }

  /** Every accepted candidate is what its call returned for its ID. */
  lemma {:induction false} RunFromAssets(gen: Generator, generated: set<Key>, call: nat, id: nat, retries: nat, remaining: nat)
    requires retries <= MaxRetries
    decreases remaining, MaxRetries - retries
    ensures AssetsFromCalls(gen, id, RunFrom(gen, generated, call, id, retries, remaining))
  {
    if remaining > 0 && gen(call, id).Ok? {
      var a := gen(call, id).value;
      if a.layers !in generated {
        var g := generated + {a.layers};
        RunFromAssets(gen, g, call + 1, id + 1, 0, remaining - 1);
        var rest := RunFrom(gen, g, call + 1, id + 1, 0, remaining - 1);
        var t := RunFrom(gen, generated, call, id, retries, remaining);
        assert t.calls == [call] + rest.calls && t.assets == [a] + rest.assets;
        forall j | 0 < j < |t.calls|
          ensures gen(t.calls[j], id + j) == Ok(t.assets[j])
        {
          assert t.calls[j] == rest.calls[j - 1] && t.assets[j] == rest.assets[j - 1];
        }
      } else if retries < MaxRetries {
        RunFromAssets(gen, generated, call + 1, id, retries + 1, remaining);
      }
    }
  }

  /** No accepted key was generated before, and the accepted keys are
      pairwise distinct. */
  predicate KeysNew(generated: set<Key>, assets: seq<Asset>)
  {
    && (forall j :: 0 <= j < |assets| ==> assets[j].layers !in generated)
    && (forall j, j' :: 0 <= j < j' < |assets| ==> assets[j].layers != assets[j'].layers)
  }

  /** No two accepted candidates share a key, nor any of them with a key
      generated before the run. */
  lemma {:induction false} RunFromKeys(gen: Generator, generated: set<Key>, call: nat, id: nat, retries: nat, remaining: nat)
    requires retries <= MaxRetries
    decreases remaining, MaxRetries - retries
    ensures KeysNew(generated, RunFrom(gen, generated, call, id, retries, remaining).assets)
  {
    if remaining > 0 && gen(call, id).Ok? {
      var a := gen(call, id).value;
      if a.layers !in generated {
        var g := generated + {a.layers};
        RunFromKeys(gen, g, call + 1, id + 1, 0, remaining - 1);
        var rest := RunFrom(gen, g, call + 1, id + 1, 0, remaining - 1).assets;
        var t := RunFrom(gen, generated, call, id, retries, remaining).assets;
        assert t == [a] + rest;
        forall j | 0 < j < |t|
          ensures t[j].layers !in generated && t[j].layers != a.layers
        {
          assert t[j] == rest[j - 1];
        }
        forall j, j' | 0 < j < j' < |t|
          ensures t[j].layers != t[j'].layers
        {
          assert t[j] == rest[j - 1] && t[j'] == rest[j' - 1];
        }
      } else if retries < MaxRetries {
        RunFromKeys(gen, generated, call + 1, id, retries + 1, remaining);
      }
    }
  }

  /** A run stops with its current slot out of retries, before filling it,
      exactly when every call still allowed in that slot yields a candidate
      whose key was generated before. */
  lemma {:induction false} RunFromExhaustedIff(gen: Generator, generated: set<Key>, call: nat, id: nat, retries: nat, remaining: nat)
    requires retries <= MaxRetries && remaining > 0
    decreases MaxRetries - retries
    ensures (RunFrom(gen, generated, call, id, retries, remaining).calls == [] &&
             RunFrom(gen, generated, call, id, retries, remaining).stop.RetriesExhausted?) <==>
      forall c :: call <= c <= call + MaxRetries - retries ==> gen(c, id).Ok? && gen(c, id).value.layers in generated
  {
    if gen(call, id).Ok? && gen(call, id).value.layers in generated && retries < MaxRetries {
      RunFromExhaustedIff(gen, generated, call + 1, id, retries + 1, remaining);
    }
  }

  /** A run that stops on a failing call reports what that call returned
      for some ID. */
  lemma {:induction false} RunFromFailure(gen: Generator, generated: set<Key>, call: nat, id: nat, retries: nat, remaining: nat)
    requires retries <= MaxRetries
    decreases remaining, MaxRetries - retries
    ensures RunFrom(gen, generated, call, id, retries, remaining).stop.GenFailed? ==>
      exists i :: gen(RunFrom(gen, generated, call, id, retries, remaining).stop.call, i) ==
                  Err(RunFrom(gen, generated, call, id, retries, remaining).stop.error)
  {
    if remaining > 0 {
      match gen(call, id)
      case Err(e) =>
        assert gen(call, id) == Err(e);
      case Ok(a) =>
        if a.layers !in generated {
          RunFromFailure(gen, generated + {a.layers}, call + 1, id + 1, 0, remaining - 1);
        } else if retries < MaxRetries {
          RunFromFailure(gen, generated, call + 1, id, retries + 1, remaining);
        }
    }
  }

  /** The outcome a run's stop calls for. */
  function OutcomeOf(stop: Stop): (o: Outcome)
    ensures o.Pass? <==> stop.Finished?
  {
    match stop
    case Finished => Pass
    case RetriesExhausted => Fail(InsufficientLayers)
    case GenFailed(_, e) => Fail(e)
  }

  /** What the run promises about the collection: the `j`-th asset is the
      one assembled by its accepted call under ID `numGenerated + j`; the
      keys are pairwise distinct; all slots are filled exactly when the run
      finishes; and a failing call fails with the first failure it meets. */
  lemma CollectionSpec(catalog: Catalog, rng: Rng, cut: Labeller, size: nat, numGenerated: nat)
    ensures |RunTrace(catalog, rng, cut, size, numGenerated).assets| == |RunTrace(catalog, rng, cut, size, numGenerated).calls|
    ensures |RunTrace(catalog, rng, cut, size, numGenerated).assets| <= size
    ensures RunTrace(catalog, rng, cut, size, numGenerated).stop.Finished? <==>
            |RunTrace(catalog, rng, cut, size, numGenerated).assets| == size
    ensures forall j :: 0 <= j < |RunTrace(catalog, rng, cut, size, numGenerated).assets| ==>
      Assembled(catalog, rng, cut, RunTrace(catalog, rng, cut, size, numGenerated).calls[j], numGenerated + j) ==
      Ok(RunTrace(catalog, rng, cut, size, numGenerated).assets[j])
    ensures forall j :: 0 <= j < |RunTrace(catalog, rng, cut, size, numGenerated).assets| ==>
      && RunTrace(catalog, rng, cut, size, numGenerated).assets[j].metadata.name == AssetName(numGenerated + j)
      && RunTrace(catalog, rng, cut, size, numGenerated).assets[j].metadata.image == ImageUri("ipfs", numGenerated + j)
    ensures KeysNew({}, RunTrace(catalog, rng, cut, size, numGenerated).assets)
    ensures RunTrace(catalog, rng, cut, size, numGenerated).stop.GenFailed? ==>
      IsFirstFault(catalog, rng, cut, RunTrace(catalog, rng, cut, size, numGenerated).stop.call,
                   RunTrace(catalog, rng, cut, size, numGenerated).stop.error)
  {
    var gen := GenOf(catalog, rng, cut);
    var t := RunTrace(catalog, rng, cut, size, numGenerated);
    RunFromShape(gen, {}, 0, numGenerated, 0, size);
    RunFromAssets(gen, {}, 0, numGenerated, 0, size);
    RunFromKeys(gen, {}, 0, numGenerated, 0, size);
    forall j | 0 <= j < |t.assets|
      ensures t.assets[j].metadata.name == AssetName(numGenerated + j)
      ensures t.assets[j].metadata.image == ImageUri("ipfs", numGenerated + j)
    {
      AssembledSpec(catalog, rng, cut, t.calls[j], numGenerated + j);
    }
    if t.stop.GenFailed? {
      RunFromFailure(gen, {}, 0, numGenerated, 0, size);
      var id :| gen(t.stop.call, id) == Err(t.stop.error);
      AssembledSpec(catalog, rng, cut, t.stop.call, id);
    }
  }

  /** The prefix of a run already carried out, followed by the rest. */
  function Then(calls: seq<nat>, assets: seq<Asset>, rest: Trace): Trace
  {
    Trace(calls + rest.calls, assets + rest.assets, rest.stop)
  }

  lemma ThenThen(calls: seq<nat>, assets: seq<Asset>, calls': seq<nat>, assets': seq<Asset>, rest: Trace)
    ensures Then(calls, assets, Then(calls', assets', rest)) == Then(calls + calls', assets + assets', rest)
  {
  }

  /** Where a run stands between slots: the keys generated so far, the
      next call of `gen_asset`, the next slot's ID and the slots left. */
  datatype Cursor = Cursor(generated: set<Key>, call: nat, id: nat, remaining: nat)

  /** The rest of the run from `cur`. */
  function RunAt(gen: Generator, cur: Cursor): Trace
  {
    RunFrom(gen, cur.generated, cur.call, cur.id, 0, cur.remaining)
  }

  /** The retry loop of one slot: candidates are drawn under the slot's ID
      until one fails, one has a new key, or `MaxRetries` retries have
      collided; the run goes on from the last call as from the first, and
      an accepted candidate moves the cursor past its slot. */
  method FillSlot(gen: Generator, cur: Cursor)
    returns (candidate: Result<Asset>, last: nat, retries: nat, next: Cursor)
    requires cur.remaining > 0
    ensures retries <= MaxRetries && last == cur.call + retries && candidate == gen(last, cur.id)
    ensures candidate.Ok? && candidate.value.layers in cur.generated ==> retries == MaxRetries
    ensures candidate.Err? ==> RunAt(gen, cur) == Trace([], [], GenFailed(last, candidate.error))
    ensures candidate.Ok? && candidate.value.layers in cur.generated ==>
      RunAt(gen, cur) == Trace([], [], RetriesExhausted)
    ensures candidate.Ok? && candidate.value.layers !in cur.generated ==>
      && next == Cursor(cur.generated + {candidate.value.layers}, last + 1, cur.id + 1, cur.remaining - 1)
      && RunAt(gen, cur) == Then([last], [candidate.value], RunAt(gen, next))
  {
    last, retries := cur.call, 0;
    candidate := gen(last, cur.id);
    while candidate.Ok? && candidate.value.layers in cur.generated && retries < MaxRetries
      invariant retries <= MaxRetries && last == cur.call + retries && candidate == gen(last, cur.id)
      invariant RunAt(gen, cur) == RunFrom(gen, cur.generated, last, cur.id, retries, cur.remaining)
      decreases MaxRetries - retries
    {
      retries := retries + 1;
      last := last + 1;
      candidate := gen(last, cur.id);
    }
    next := cur;
    if candidate.Ok? && candidate.value.layers !in cur.generated {
      next := Cursor(cur.generated + {candidate.value.layers}, last + 1, cur.id + 1, cur.remaining - 1);
    }
  }

  /** `records` are the assets `assets` saved under consecutive IDs from
      `first`. */
  predicate Persisted(records: seq<Record>, first: nat, assets: seq<Asset>)
  {
    |records| == |assets| && forall j :: 0 <= j < |records| ==> records[j] == Record(first + j, assets[j])
  }

  lemma PersistedAppend(records: seq<Record>, first: nat, assets: seq<Asset>, a: Asset)
    requires Persisted(records, first, assets)
    ensures Persisted(records + [Record(first + |assets|, a)], first, assets + [a])
  {
  }

  /** The loop of `Generate::run` over the slots, with `gen_asset` passed
      in as `gen`: slot `i` gets ID `i + numGenerated`; a candidate is drawn
      until one fails, one has a key not yet generated, which then joins
      the generated keys, or the slot has collided `MaxRetries + 1` times. */
  method GenerateCollection(gen: Generator, size: nat, numGenerated: nat)
    returns (records: seq<Record>, outcome: Outcome)
    ensures Persisted(records, numGenerated, RunFrom(gen, {}, 0, numGenerated, 0, size).assets)
    ensures outcome == OutcomeOf(RunFrom(gen, {}, 0, numGenerated, 0, size).stop)
  {
    var cur := Cursor({}, 0, numGenerated, size);
    ghost var full := RunAt(gen, cur);
    ghost var calls: seq<nat> := [];
    ghost var assets: seq<Asset> := [];
    records := [];
    var i := 0;
    while i < size
      invariant i <= size && |assets| == i && cur.id == i + numGenerated && cur.remaining == size - i
      invariant full == Then(calls, assets, RunAt(gen, cur))
      invariant Persisted(records, numGenerated, assets)
    {
      var candidate, last, retries, next := FillSlot(gen, cur);
      if candidate.Err? {
        assert assets + [] == assets;
        outcome := Fail(candidate.error);
        return;
      }
      if candidate.value.layers in cur.generated {
        assert assets + [] == assets;
        outcome := Fail(InsufficientLayers);
        return;
      }
      ThenThen(calls, assets, [last], [candidate.value], RunAt(gen, next));
      PersistedAppend(records, numGenerated, assets, candidate.value);
      records := records + [Record(cur.id, candidate.value)];
      calls := calls + [last];
      assets := assets + [candidate.value];
      cur := next;
      i := i + 1;
    }
    assert assets + [] == assets;
    outcome := Pass;
  }

  /** The catalog read from a directory tree is determined by it. */
  lemma CatalogUnique(root: string, dirs: seq<Subdir>, c1: Catalog, c2: Catalog)
    requires IsCatalogOf(root, dirs, c1) && IsCatalogOf(root, dirs, c2)
    ensures c1 == c2
  {
    forall k | 0 <= k < |dirs|
      ensures c1[k] == c2[k]
    {
      assert IsCategoryOf(root, dirs[k], c1[k]) && IsCategoryOf(root, dirs[k], c2[k]);
      forall j | 0 <= j < |c1[k]|
        ensures c1[k][j] == c2[k][j]
      {
        assert IsLayerOf(root, dirs[k], j, c1[k][j]) && IsLayerOf(root, dirs[k], j, c2[k][j]);
      }
    }
  }

  /** The second half of `Generate::run` over a built catalog: the collection
      loop with `GenAsset` as the generator and the program's own labels. */
  method Collect(catalog: Catalog, rng: Rng, size: nat, numGenerated: nat)
    returns (records: seq<Record>, outcome: Outcome)
    ensures var trace := RunTrace(catalog, rng, TraitOf, size, numGenerated);
            Persisted(records, numGenerated, trace.assets) && outcome == OutcomeOf(trace.stop)
  {
    records, outcome := GenerateCollection(GenOf(catalog, rng, TraitOf), size, numGenerated);
  }

  /** `Generate::run`: parse the requested size, build the catalog from the
      sorted category directories, then run the collection loop. The catalog
      a listing determines is unique (`CatalogUnique`). */
  method Run(root: string, subdirs: seq<Subdir>, number: string, numGenerated: nat, rng: Rng)
    returns (records: seq<Record>, outcome: Outcome)
    ensures ParseU128(number).None? ==> records == [] && outcome == Fail(InvalidCollectionSize)
    ensures ParseU128(number).Some? && !AllWeighted(root, SortByName(subdirs)) ==>
      records == [] && outcome.Fail? && outcome.error.InvalidWeight?
    ensures ParseU128(number).Some? && AllWeighted(root, SortByName(subdirs)) ==>
      exists catalog :: IsCatalogOf(root, SortByName(subdirs), catalog) &&
        var trace := RunTrace(catalog, rng, TraitOf, ParseU128(number).value, numGenerated);
        Persisted(records, numGenerated, trace.assets) && outcome == OutcomeOf(trace.stop)
  {
    var size := ParseU128(number);
    if size.None? {
      return [], Fail(InvalidCollectionSize);
    }
    var catalog := BuildCatalog(root, subdirs);
    if catalog.Err? {
      return [], Fail(catalog.error);
    }
    records, outcome := Collect(catalog.value, rng, size.value, numGenerated);
  }
}
