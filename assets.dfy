/** What both commands build for one asset: the trait labels cut from the
    chosen files' names, the metadata record, and the canvas the images are
    composed on. */
module Assets {
  import opened Errors
  import opened Strings
  import opened Paths

  /** One `{ "trait_type": ..., "value": ... }` entry of the metadata. */
  datatype Trait = Trait(traitType: string, value: string)

  datatype Metadata = Metadata(name: string, description: string, image: string, attributes: seq<Trait>)

  /** The image being composed: the file it was opened from and, in order,
      the files overlaid onto it at the origin. Pixels are not modelled. */
  datatype Canvas = Canvas(base: string, overlays: seq<string>)
  {
    function Overlay(top: string): Canvas { Canvas(base, overlays + [top]) }
  }

  const Description: string := "<my_project> is a cultural revolution."

  /** The number of bytes of `c` in UTF-8. */
  function Utf8Width(c: char): (n: nat)
    ensures 1 <= n <= 4
  {
    if c as int < 0x80 then 1
    else if c as int < 0x800 then 2
    else if c as int < 0x1_0000 then 3
    else 4
  }

  /** `&stem[2..]`: the label after the two-byte weight prefix. The slice
      panics when the stem is shorter than two bytes or when byte 2 falls
      inside a character. */
  function StripWeight(stem: string): (rest: Option<string>)
  {
    if |stem| >= 1 && Utf8Width(stem[0]) == 2 then Some(stem[1..])
    else if |stem| >= 2 && Utf8Width(stem[0]) == 1 && Utf8Width(stem[1]) == 1 then Some(stem[2..])
    else None
  }

  /** The number of bytes of `s` in UTF-8. */
  function Utf8Bytes(s: string): (n: nat)
    ensures n >= |s|
  {
    if s == [] then 0 else Utf8Bytes(s[..|s| - 1]) + Utf8Width(s[|s| - 1])
  }

  /** The slice succeeds exactly when some prefix of the stem is two bytes
      long, and the label is what follows that prefix. */
  lemma {:induction false} StripWeightSpec(stem: string)
    ensures StripWeight(stem).Some? <==> exists n :: 0 <= n <= |stem| && Utf8Bytes(stem[..n]) == 2
    ensures forall n :: 0 <= n <= |stem| && Utf8Bytes(stem[..n]) == 2 ==> StripWeight(stem) == Some(stem[n..])
  {
    forall n | 0 <= n <= |stem| && Utf8Bytes(stem[..n]) == 2
      ensures StripWeight(stem) == Some(stem[n..])
    {
      assert n != 0;
      assert stem[..n][..n - 1] == stem[..n - 1];
      if n == 2 {
        assert stem[..1][..0] == [];
      }
    }
    if StripWeight(stem).Some? {
      if Utf8Width(stem[0]) == 2 {
        assert stem[..1][..0] == [];
        assert Utf8Bytes(stem[..1]) == 2;
      } else {
        assert stem[..2][..1] == stem[..1] && stem[..1][..0] == [];
        assert Utf8Bytes(stem[..2]) == 2;
      }
    }
  }

  /** A stem that starts with two ASCII characters loses exactly those two. */
  lemma StripAsciiPrefix(stem: string)
    requires |stem| >= 2 && stem[0] as int < 0x80 && stem[1] as int < 0x80
    ensures StripWeight(stem) == Some(stem[2..])
  {
  }

  /** The trait of a layer file: its parent directory's stem and its own stem,
      each without the weight prefix. */
  function TraitOf(file: string): Option<Trait>
  {
    var dirStem := ParentStem(file);
    var fileStem := FileStem(file);
    if dirStem.None? || fileStem.None? then None
    else
      match (StripWeight(dirStem.value), StripWeight(fileStem.value))
      case (Some(t), Some(v)) => Some(Trait(t, v))
      case _ => None
  }

  /** For a file listed inside a category directory the two stems are those
      of the directory name and of the file name. */
  lemma TraitOfEntry(root: string, dir: string, name: string)
    requires IsEntryName(dir) && IsEntryName(name)
    ensures FileStem(dir).Some? && FileStem(name).Some?
    ensures var t := TraitOf(Join(Join(root, dir), name));
            var (dirLabel, fileLabel) := (StripWeight(FileStem(dir).value), StripWeight(FileStem(name).value));
            && (t.Some? <==> dirLabel.Some? && fileLabel.Some?)
            && (t.Some? ==> t.value == Trait(dirLabel.value, fileLabel.value))
  {
    var d := Join(root, dir);
    JoinedPath(root, dir);
    JoinedPath(d, name);
    EntryStem(root, dir);
    EntryStem(d, name);
  }

  lemma ExampleDirectoryStem()
    ensures IsEntryName("03Eyecolor") && FileStem("03Eyecolor") == Some("03Eyecolor")
  {
    StemWithoutDot("03Eyecolor");
  }

  lemma ExampleFileStem()
    ensures IsEntryName("01Cyan.png") && FileStem("01Cyan.png") == Some("01Cyan")
  {
    assert "01Cyan" + "." + "png" == "01Cyan.png";
    StemBeforeDot("01Cyan", "png");
  }

  lemma ExampleLabels()
    ensures StripWeight("03Eyecolor") == Some("Eyecolor") && StripWeight("01Cyan") == Some("Cyan")
  {
    StripAsciiPrefix("03Eyecolor");
    StripAsciiPrefix("01Cyan");
  }

  /** `<root>/03Eyecolor/01Cyan.png` is the trait `Eyecolor` with value `Cyan`. */
  lemma EyecolorExample(root: string)
    ensures TraitOf(Join(Join(root, "03Eyecolor"), "01Cyan.png")) == Some(Trait("Eyecolor", "Cyan"))
  {
    ExampleDirectoryStem();
    ExampleFileStem();
    ExampleLabels();
    TraitOfEntry(root, "03Eyecolor", "01Cyan.png");
  }

  /** A layer named with a doubled separator or a `.` segment before its
      file name is labelled as it is without them. */
  lemma RedundantSegmentsLabel(dir: string, name: string)
    requires dir != "" && IsEntryName(name)
    ensures TraitOf(dir + "//" + name) == TraitOf(dir + "/" + name)
    ensures TraitOf(dir + "/./" + name) == TraitOf(dir + "/" + name)
  {
    RedundantSegments(dir, name);
    SameComponentsSameTrait(dir + "//" + name, dir + "/" + name);
    SameComponentsSameTrait(dir + "/./" + name, dir + "/" + name);
  }

  /** The labels of a path depend only on its components. */
  lemma SameComponentsSameTrait(p: string, q: string)
    requires Components(p) == Components(q)
    ensures TraitOf(p) == TraitOf(q)
  {
    SameComponentsSameStems(p, q);
  }

  /** `<root>/03Eyecolor//01Cyan.png` and `<root>/03Eyecolor/./01Cyan.png`
      are the trait `Eyecolor` with value `Cyan`. */
  lemma RedundantSegmentsExample(root: string)
    ensures var dir := Join(root, "03Eyecolor");
            && TraitOf(dir + "//" + "01Cyan.png") == Some(Trait("Eyecolor", "Cyan"))
            && TraitOf(dir + "/./" + "01Cyan.png") == Some(Trait("Eyecolor", "Cyan"))
  {
    var dir := Join(root, "03Eyecolor");
    assert dir[|dir| - 1] == 'r';
    assert Join(dir, "01Cyan.png") == dir + "/" + "01Cyan.png";
    ExampleFileStem();
    RedundantSegmentsLabel(dir, "01Cyan.png");
    EyecolorExample(root);
  }

  /** `format!("<my_project> #{}", id)`. */
  function AssetName(id: nat): string { "<my_project> #" + NatToString(id) }

  /** `format!("{scheme}://hash/{}.png", id)`. */
  function ImageUri(scheme: string, id: nat): string { scheme + "://hash/" + NatToString(id) + ".png" }

  /** Different IDs give different names. */
  lemma AssetNameInjective(a: nat, b: nat)
    ensures AssetName(a) == AssetName(b) ==> a == b
  {
    if AssetName(a) == AssetName(b) {
      var p := "<my_project> #";
      assert AssetName(a)[|p|..] == NatToString(a);
      assert AssetName(b)[|p|..] == NatToString(b);
      NatToStringInjective(a, b);
    }
  }

  /** Different IDs give different image references. */
  lemma ImageUriInjective(scheme: string, a: nat, b: nat)
    ensures ImageUri(scheme, a) == ImageUri(scheme, b) ==> a == b
  {
    var p := scheme + "://hash/";
    var u, v := ImageUri(scheme, a), ImageUri(scheme, b);
    assert u == p + NatToString(a) + ".png";
    if u == v {
      assert |NatToString(a)| == |NatToString(b)|;
      assert u[|p|..|u| - 4] == NatToString(a);
      assert v[|p|..|v| - 4] == NatToString(b);
      NatToStringInjective(a, b);
    }
  }
}
