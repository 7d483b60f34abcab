/** The `select` command: one asset composed from layer files named on the
    command line, the first as the base and the rest overlaid on it in the
    order given. */
module Select {
  import opened Errors
  import opened Assets
  import Generate

  type Labeller = Generate.Labeller

  /** The command line split into the base file and the top files. */
  datatype Layers = Layers(base: string, top: seq<string>)

  /** What `gen_asset` hands back: the composed image and its metadata. */
  datatype Selected = Selected(canvas: Canvas, metadata: Metadata)

  /** What `Select::run` writes: the asset under its ID. */
  datatype Saved = Saved(id: nat, asset: Selected)

  /** `layers[0]` and `layers[1..]`; indexing an empty list panics. */
  function SplitLayers(args: seq<string>): (r: Result<Layers>)
    ensures r.Ok? <==> |args| > 0
    ensures r.Ok? ==> [r.value.base] + r.value.top == args
    ensures r.Err? ==> r.error == NoLayers
  {
    if |args| == 0 then Err(NoLayers) else Ok(Layers(args[0], args[1..]))
  }

  /** Every file in `files` has both of its labels. */
  predicate Labelled(cut: Labeller, files: seq<string>)
  {
    forall i :: 0 <= i < |files| ==> cut(files[i]).Some?
  }

  /** The traits of `files`, in order, or the panic at the first file whose
      labels cannot be cut. */
  function Labels(cut: Labeller, files: seq<string>): (r: Result<seq<Trait>>)
    ensures r.Ok? <==> Labelled(cut, files)
    ensures r.Ok? ==> |r.value| == |files| && forall i :: 0 <= i < |files| ==> Some(r.value[i]) == cut(files[i])
  {
    if files == [] then Ok([])
    else
      match cut(files[0])
      case None => Err(InvalidLabel(files[0]))
      case Some(t) =>
        match Labels(cut, files[1..])
        case Err(e) => Err(e)
        case Ok(ts) =>
          assert forall i :: 1 <= i < |files| ==> files[i] == files[1..][i - 1];
          Ok([t] + ts)
  }

  /** The failure names the first file without labels. */
  lemma {:induction false} LabelsStopAt(cut: Labeller, files: seq<string>, i: nat)
    requires i < |files| && Labelled(cut, files[..i]) && cut(files[i]).None?
    ensures Labels(cut, files) == Err(InvalidLabel(files[i]))
  {
    if i > 0 {
      assert files[0] == files[..i][0];
      assert files[1..][..i - 1] == files[..i][1..];
      var rest := files[1..][..i - 1];
      assert Labelled(cut, rest) by {
        forall j | 0 <= j < |rest| ensures cut(rest[j]).Some? {
          assert rest[j] == files[..i][j + 1];
        }
      }
      LabelsStopAt(cut, files[1..], i - 1);
    }
  }

  /** The asset `gen_asset` builds from `layers`: the attributes are the
      labels of the base and then of the top files, in argument order; the
      top files are overlaid on the base in argument order. */
  function SelectedAsset(cut: Labeller, layers: Layers, id: nat): Result<Selected>
  {
    match Labels(cut, [layers.base] + layers.top)
    case Err(e) => Err(e)
    case Ok(attributes) =>
      Ok(Selected(Canvas(layers.base, layers.top),
                  Metadata(AssetName(id), Description, ImageUri("ar", id), attributes)))
  }

  /** The loop of `gen_asset` over the top files: cut each file's labels in
      order, stopping at the first that panics. */
  method CutLabels(cut: Labeller, files: seq<string>) returns (r: Result<seq<Trait>>)
    ensures r == Labels(cut, files)
  {
    var traits := [];
    var i := 0;
    while i < |files|
      invariant 0 <= i <= |files| && |traits| == i
      invariant forall j :: 0 <= j < i ==> Some(traits[j]) == cut(files[j])
    {
      var t := cut(files[i]);
      if t.None? {
        ghost var done := files[..i];
        assert Labelled(cut, done) by {
          forall j | 0 <= j < |done| ensures cut(done[j]).Some? {
            assert Some(traits[j]) == cut(files[j]);
          }
        }
        LabelsStopAt(cut, files, i);
        return Err(InvalidLabel(files[i]));
      }
      traits := traits + [t.value];
      i := i + 1;
    }
    assert Labelled(cut, files) by {
      forall j | 0 <= j < |files| ensures cut(files[j]).Some? {
        assert Some(traits[j]) == cut(files[j]);
      }
    }
    assert traits == Labels(cut, files).value;
    return Ok(traits);
  }

  /** Overlay `tops` onto `canvas` one by one, in order. */
  method OverlayEach(canvas: Canvas, tops: seq<string>) returns (c: Canvas)
    ensures c == Canvas(canvas.base, canvas.overlays + tops)
  {
    c := canvas;
    var i := 0;
    while i < |tops|
      invariant 0 <= i <= |tops| && c == Canvas(canvas.base, canvas.overlays + tops[..i])
    {
      assert tops[..i + 1] == tops[..i] + [tops[i]];
      c := c.Overlay(tops[i]);
      i := i + 1;
    }
    assert tops[..i] == tops;
  }

  /** `gen_asset` of `select.rs`: cut the base's labels, then each top
      file's, then overlay the top files one by one. */
  method GenAsset(cut: Labeller, layers: Layers, id: nat) returns (r: Result<Selected>)
    ensures r == SelectedAsset(cut, layers, id)
  {
    ghost var files := [layers.base] + layers.top;
    assert files[0] == layers.base && files[1..] == layers.top;
    var baseTrait := cut(layers.base);
    if baseTrait.None? {
      return Err(InvalidLabel(layers.base));
    }
    var topTraits := CutLabels(cut, layers.top);
    if topTraits.Err? {
      return Err(topTraits.error);
    }
    var metadata := Metadata(AssetName(id), Description, ImageUri("ar", id), [baseTrait.value] + topTraits.value);
    var canvas := OverlayEach(Canvas(layers.base, []), layers.top);
    assert [] + layers.top == layers.top;
    return Ok(Selected(canvas, metadata));
  }

  /** `Select::run`: the ID is the number of entries already in the output
      directory; the asset is built from the command line and saved under
      that ID. */
  method Run(args: seq<string>, existing: nat) returns (r: Result<Saved>)
    ensures |args| == 0 ==> r == Err(NoLayers)
    ensures |args| > 0 ==> (r.Ok? <==> Labelled(TraitOf, args))
    ensures forall i | 0 <= i < |args| && Labelled(TraitOf, args[..i]) && TraitOf(args[i]).None? :: r == Err(InvalidLabel(args[i]))
    ensures r.Ok? ==> && r.value.id == existing
                      && r.value.asset.canvas == Canvas(args[0], args[1..])
                      && r.value.asset.metadata.name == AssetName(existing)
                      && r.value.asset.metadata.description == Description
                      && r.value.asset.metadata.image == ImageUri("ar", existing)
                      && |r.value.asset.metadata.attributes| == |args|
                      && forall i :: 0 <= i < |args| ==> Some(r.value.asset.metadata.attributes[i]) == TraitOf(args[i])
  {
    var layers := SplitLayers(args);
    if layers.Err? {
      return Err(layers.error);
    }
    var id := existing;
    var asset := GenAsset(TraitOf, layers.value, id);
    forall i | 0 <= i < |args| && Labelled(TraitOf, args[..i]) && TraitOf(args[i]).None?
      ensures asset == Err(InvalidLabel(args[i]))
    {
      LabelsStopAt(TraitOf, args, i);
    }
    if asset.Err? {
      return Err(asset.error);
    }
    r := Ok(Saved(id, asset.value));
  }

  /** Given the same files with the same labels, `select` and `generate`
      build the same name, description, base and set of overlaid files, and
      the same attributes except where the base's entry goes: first here,
      last there. Only the image reference differs. */
  lemma AgreesWithGenerate(cut: Labeller, base: string, tops: seq<string>, baseTrait: Trait, traits: seq<Trait>, id: nat)
    requires Labels(cut, [base] + tops) == Ok([baseTrait] + traits)
    ensures var s := SelectedAsset(cut, Layers(base, tops), id);
            var g := Generate.AssetOf(Generate.Draws([base] + tops, [baseTrait] + traits), id);
            && s.Ok?
            && s.value.metadata.attributes == [baseTrait] + traits
            && g.metadata.attributes == traits + [baseTrait]
            && s.value.metadata.name == g.metadata.name
            && s.value.metadata.description == g.metadata.description
            && s.value.metadata.image != g.metadata.image
            && s.value.canvas.base == g.canvas.base
            && (forall f :: f in s.value.canvas.overlays <==> f in g.canvas.overlays)
  {
    assert |tops| == |traits|;
    var layers := {base} + set f | f in tops;
    Generate.AssetOfParts(base, tops, baseTrait, traits, id, layers, Generate.Listing(tops));
    SchemesDiffer(id);
  }

  /** The two commands' image references never coincide. */
  lemma SchemesDiffer(id: nat)
    ensures ImageUri("ar", id) != ImageUri("ipfs", id)
  {
    assert ImageUri("ar", id)[2] == ':' && ImageUri("ipfs", id)[2] == 'f';
  }
}
