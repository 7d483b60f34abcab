# artgen-rs generation engine in Dafny

This project models the core of `artgen-rs`, a command-line generator of
layered digital art. It covers two commands.

`generate` does three things:
- It reads a root directory of category directories, sorted by path. Every
  file in a category carries a two-character rarity weight at the start of
  its stem.
- For each slot of the collection, it draws one file per category with
  probability proportional to the weights and assembles a candidate asset:
  - an identity key, the set of drawn files;
  - a composed image, the base file with the other files overlaid in
    ascending path order;
  - metadata whose attributes list the later categories in order, then the
    base.
- It rejects a candidate whose key was already generated in the run. A slot
  gets at most eleven attempts; the eleventh collision aborts the run.

`select` composes one asset from a list of layer files. The first file is
the base. Its attributes come first. The other files are overlaid in argument
order. `Command::read` dispatches `select` (src/commands/mod.rs:23), but the
command line built in src/app.rs:12-58 declares only the `generate`
subcommand, so `select` and its `layers` argument cannot be reached from the
command line as the source stands. The model covers `Select::run` and its
`gen_asset` as they are written.

Modules, one per file:
- `Errors`: `Option`, `Result` and the `Failure` kinds: one per abort of the
  modelled code, among them the `InvalidCollectionSize` and
  `InsufficientLayers` of `ArtGenError`. The aborts listed under "Left out"
  have no `Failure`.
- `Strings`: `u128` parsing, `{}` formatting and `String` order. A
  `BTreeSet<String>` is its strictly ascending listing.
- `Paths`: `Path::components` on Unix, and `file_name`, `parent`,
  `file_stem` and `join` over it. Repeated separators and `.` segments after
  the start are not components, so `a//b` and `a/./b` are `a/b`.
- `Sampling`: the weighted choice as an inverse cumulative distribution over
  a supplied random number.
- `Assets`: traits, metadata, the canvas as an overlay log, label cutting,
  and names and image references.
- `Generate`: the catalog, `gen_asset` and the collection loop.
- `Select`: the `select` command.

The randomness of a run is the parameter `rng`. `rng(call, k)` is the number
the `call`-th `gen_asset` of the run draws for category `k`.

The assembly layer (`DrawOne` … `GenAsset`, `Select.GenAsset`) is proved
for any labeller `cut` from a file path to a trait. Both commands' `Run`
pass `Assets.TraitOf`, the label cutting of the source.

In three places the source's own text promises more than its code does. The
model follows the code:
- The message of `InvalidCollectionSize` asks for a positive integer
  (src/error.rs:32). A size of `0` still parses as a `u128` and yields an
  empty, passing run.
- The `unique` and `fresh` flags declared in src/app.rs:32-57 are never
  read. Uniqueness is always enforced, and existing assets are never wiped.
- The comment at src/commands/generate.rs:240 says the top layers are
  overlaid in order. They come out of a `BTreeSet` in ascending order of
  their path strings, not in category order. The two agree unless one
  category name is a proper prefix of another and the longer name's next
  character sorts before `/`. `Generate.OverlayOrder` states the order the
  code uses.

## Model

| member | source | states |
|---|---|---|
| Strings.TwoCharParse | src/commands/generate.rs:101-106 | a two-character prefix parses as a `u128` exactly when it is two digits or `+` and a digit; its value is then the digits' value, at most 99 |
| Strings.ParseNatToString | src/commands/generate.rs:229-232 | parsing the decimal text of an ID in the `u128` range gives the ID back |
| Strings.NatToStringInjective | src/commands/generate.rs:230 | different IDs have different decimal texts |
| Strings.SetInsert | src/commands/generate.rs:203 | `BTreeSet::insert` keeps the listing strictly ascending and adds exactly the new element |
| Strings.AscendingListingUnique | src/commands/generate.rs:241 | a set of strings has exactly one ascending iteration order |
| Paths.JoinedComponents | src/commands/generate.rs:96-97 | joining an entry name onto any directory, with or without a trailing separator, appends exactly one normal component |
| Paths.JoinedPath | src/commands/generate.rs:96-97 | a listed entry joined to its directory has the entry as file name, and the parent has the directory's components |
| Paths.ComponentsAppend | src/commands/select.rs:84-94 | a separator and a segment appended to a path add that segment's component; an empty or `.` segment adds none |
| Paths.RedundantSegments | src/commands/select.rs:108-116 | `dir//name` and `dir/./name` have the components of `dir/name` |
| Paths.SameComponentsSameStems | src/commands/select.rs:108-116 | a path's file stem and its parent's stem depend only on its components |
| Paths.EntryStem | src/commands/generate.rs:101 | the stem of a joined path is the stem of the entry name |
| Sampling.Sample | src/commands/generate.rs:169-174 | the drawn index is in range and never has weight zero; the random number's residue lies in that index's interval |
| Sampling.SampleExactly | src/commands/generate.rs:199-202 | index `k` is drawn exactly for the residues in its interval, whose length is its weight |
| Sampling.SampleReaches | src/commands/generate.rs:199-202 | every index of positive weight is drawn for some random number |
| Assets.StripWeightSpec | src/commands/generate.rs:176-188 | the slice `[2..]` succeeds exactly when some prefix of the stem is two UTF-8 bytes long, and the label is what follows that prefix |
| Assets.TraitOfEntry | src/commands/generate.rs:204-211 | the trait of `dir/name` exists exactly when both stems lose their prefix; its type is the directory's stripped stem and its value the file's |
| Assets.EyecolorExample | src/commands/generate.rs:92-95 | `03Eyecolor/01Cyan.png` is trait type `Eyecolor` with value `Cyan` |
| Assets.SameComponentsSameTrait | src/commands/select.rs:86-94 | the labels of a path depend only on its components |
| Assets.RedundantSegmentsLabel | src/commands/select.rs:108-116 | a layer path with a doubled separator or a `.` segment before the file name has the labels of the path without it |
| Assets.RedundantSegmentsExample | src/commands/select.rs:84-94 | `<root>/03Eyecolor//01Cyan.png` and `<root>/03Eyecolor/./01Cyan.png` are trait type `Eyecolor` with value `Cyan` |
| Assets.AssetNameInjective | src/commands/generate.rs:230 | different IDs give different names |
| Assets.ImageUriInjective | src/commands/generate.rs:232 | different IDs give different image references |
| Generate.SortByName | src/commands/generate.rs:59 | the category directories come out sorted by name and are a permutation of the listing |
| Generate.WeightOf | src/commands/generate.rs:101-106 | a weight, when there is one, is at most 99 |
| Generate.WeightOfEntry | src/commands/generate.rs:96-101 | the weight of a listed file depends only on its entry name |
| Generate.WeightOfFile | src/commands/generate.rs:99-106 | a file `<stem>.<ext>` has a weight exactly when the stem starts with two digits or with `+` and a digit, and then weighs their value: `01Cyan.png` weighs 1, `+5Cyan.png` weighs 5 since `u128` parsing accepts a leading `+`, `7Cyan.png` has none |
| Generate.WeightedStemStrips | src/commands/generate.rs:184-188 | cutting the label from a weighted file's stem never panics and drops exactly the two weight characters |
| Generate.CatalogTraits | src/commands/generate.rs:204-211 | a catalog layer's trait value is its file stem without the weight; the trait exists exactly when the category directory's stem loses its prefix |
| Generate.BuildCategory | src/commands/generate.rs:94-110 | succeeds exactly when every listed file has a weight; the layers are then one per file, in listing order, with that file's path and weight; a failure names a file without a weight |
| Generate.BuildCatalog | src/commands/generate.rs:90-111 | succeeds exactly when every file of every sorted category has a weight; the catalog then has one category per sorted directory; a failure names a file without a weight |
| Generate.CatalogUnique | src/commands/generate.rs:90-111 | a directory listing determines its catalog |
| Generate.DrawUpToSpec | src/commands/generate.rs:198-219 | the draws of the first `k` categories hold what each category drew; their failure is that of the first failing category |
| Generate.DrawUpToErrPersists | src/commands/generate.rs:198-219 | once a category fails, the assembly fails with that failure |
| Generate.Listing | src/commands/generate.rs:194-203 | the set of top files is listed in strictly ascending order with exactly the drawn files |
| Generate.AssetOfSpec | src/commands/generate.rs:194-244 | the key holds exactly the drawn files; the base is the canvas's base and the others are overlaid ascending; name, description and `ipfs` image follow the ID; attributes list the later categories in order and the base last; with distinct files, one key entry per category and the base never overlaid |
| Generate.OverlayOrder | src/commands/generate.rs:241-244 | the overlays are the ascending order of the later categories' files, whatever order they were drawn in |
| Generate.AssembledSpec | src/commands/generate.rs:165-251 | `gen_asset` succeeds exactly when there is a category and every category draws a labelled file; the asset then meets `IsAssetOf`; otherwise it fails as the first failing category does |
| Generate.AssembledFails | src/commands/generate.rs:169-211 | a category failing after successful ones is the failure of the whole assembly |
| Generate.OverlayAll | src/commands/generate.rs:237-244 | the canvas gets every top file overlaid once, in order; the key is the base plus the top files |
| Generate.DrawOneSpec | src/commands/generate.rs:199-211 | a category fails with `EmptyDistribution` exactly when `WeightedAliasIndex::new` rejects its weights, and otherwise only on a drawn file without labels; a draw is a file of that category with positive weight, together with its labels |
| Generate.DrawCategory | src/commands/generate.rs:199-211 | one category's step computes `DrawOne`, whose meaning `DrawOneSpec` states |
| Generate.Compose | src/commands/generate.rs:221-250 | builds the asset of the drawn files with the base trait last and the top files overlaid in ascending order |
| Generate.GenAsset | src/commands/generate.rs:165-251 | returns exactly the asset or failure that `Assembled` describes, whose meaning `AssembledSpec` gives |
| Generate.RunFromShape | src/commands/generate.rs:117-159 | a run fills at most the requested number of slots, all of them exactly when it finishes, one accepted call per filled slot |
| Generate.RunFromSpaced | src/commands/generate.rs:124-147 | accepted calls increase, and each slot uses at most `MaxRetries + 1` = 11 calls |
| Generate.RunFromAssets | src/commands/generate.rs:117-135 | the `j`-th accepted asset is what its call returned under the `j`-th consecutive ID |
| Generate.RunFromKeys | src/commands/generate.rs:130-149 | accepted keys are pairwise distinct and none was generated before |
| Generate.RunFromExhaustedIff | src/commands/generate.rs:124-147 | the run aborts in the current slot exactly when all 11 calls of the slot return a candidate whose key was already generated |
| Generate.RunFromFailure | src/commands/generate.rs:128 | a run stopped by a failing call reports that call's failure |
| Generate.OutcomeOf | src/commands/generate.rs:137-145 | the run passes exactly when every slot was filled |
| Generate.CollectionSpec | src/commands/generate.rs:113-159 | a collection run yields at most `size` assets, all of them exactly when it finishes; asset `j` is `gen_asset`'s result under ID `numGenerated + j`, with that name and `ipfs` image; keys are pairwise distinct; a failure is the first failing category of its call |
| Generate.FillSlot | src/commands/generate.rs:124-147 | retries at most 10 times; returns the first failure, the first new key, or the 11th collision, and what the rest of the run then is |
| Generate.GenerateCollection | src/commands/generate.rs:113-159 | saves the accepted assets of the run under consecutive IDs from `numGenerated` and reports the run's stop as its outcome |
| Generate.Collect | src/commands/generate.rs:113-159 | the collection loop with the program's `gen_asset` and labels saves exactly the run's assets |
| Generate.Run | src/commands/generate.rs:46-161 | an unparsable size fails with nothing saved; a file without a weight fails with nothing saved; otherwise the saved records and the outcome are those of the run over the catalog |
| Select.SplitLayers | src/commands/select.rs:42-46 | the base followed by the top files is the argument list; there is a split exactly when there is an argument |
| Select.Labels | src/commands/select.rs:86-124 | succeeds exactly when every file has labels; the traits are then the files' traits in order |
| Select.LabelsStopAt | src/commands/select.rs:107-124 | the failure names the first file without labels |
| Select.CutLabels | src/commands/select.rs:107-124 | the top-file loop returns the traits of `Labels` or its failure |
| Select.OverlayEach | src/commands/select.rs:134-136 | each top file is overlaid once, in argument order |
| Select.GenAsset | src/commands/select.rs:82-142 | returns exactly the asset `SelectedAsset` describes: base-first attributes, overlays in argument order, `ar` image |
| Select.Run | src/commands/select.rs:41-79 | no arguments fail with `NoLayers`; it succeeds exactly when every file has labels, else fails naming the first that has none; the asset then has ID `existing`, the first file as base, the rest overlaid in order, the matching name, description and `ar` image, and one attribute per file in argument order |
| Select.AgreesWithGenerate | src/commands/select.rs:99-131 | from the same files and labels, both commands give the same name, description, base and overlaid files; `select` puts the base trait first where `generate` puts it last; the image references differ |
| Select.SchemesDiffer | src/commands/select.rs:129 | an `ar` image reference never equals the `ipfs` one for the same ID |

## Left out

- Pixels are not modelled. `image::open`, `overlay` and `save` become an overlay log on `Canvas`. A file that fails to decode or encode is not modelled: the `image::open(..).unwrap()` panics of src/commands/generate.rs:191 and 242, and the errors `select` returns at src/commands/select.rs:97 and 135, have no `Failure`.
- File and directory names are Dafny strings, so a name that is not valid UTF-8 cannot be written down. The source panics on one at `to_str().unwrap()` (src/commands/generate.rs:101, 176-188 and 204-211; src/commands/select.rs:86-94 and 108-116); that panic is not modelled.
- Every root entry is a `Subdir`, a directory. A root entry that is a plain file, such as the `.DS_Store` that src/main.rs:10 mentions, makes `fs::read_dir(folder.path()).unwrap()` panic at src/commands/generate.rs:96; that panic is not modelled.
- Paths are Unix paths: `/` is the only separator and there are no Windows prefixes. A parent path is represented by its components, since only its file stem is used.
- `IncorrectDirectoryConvention` and `IncorrectFileConvention` (src/error.rs:11-12) are declared but never raised by the source. A badly named file or directory surfaces as the panics modelled by `InvalidWeight` and `InvalidLabel`.
- `WeightedAliasIndex` is replaced by an inverse cumulative choice over a supplied random number. It has the same set of possible results and the same failure condition. Probabilities are not modelled.
- `thread_rng` is the parameter `rng`.
- The filesystem is not modelled. Reading the root directory (`MissingDirectory`), creating the output directories and writing images and JSON are left out. The directory listing (`Subdir`), in `read_dir` order, is an input. The count of existing outputs is the parameter `numGenerated` (`existing` for `select`). Saved assets are returned as records.
- Console output is left out.
- Generate.Run: `i + num_generated` is an unbounded `nat`. The `u128` overflow past 2^128 - 1 assets is not modelled.
- Generate.GenerateCollection: it takes `gen_asset` as the function value `GenOf(catalog, rng, TraitOf)`. It does not call the method `Generate.GenAsset`, which is proved to compute the same `Assembled` value. This keeps the loop's proof independent of how one asset is built.
- Generate.GenAsset: the labeller is a parameter. The program passes `Assets.TraitOf`.
- Select.GenAsset: the labeller is a parameter, as for `Generate.GenAsset`.
- Select.Run: a missing `layers` argument (`values_of(..).unwrap()`) and an empty one both give `NoLayers`.
- The `unique` and `fresh` flags of `src/app.rs` are left out, because the commands never read them.
- `src/main.rs`, `src/commands/mod.rs`, `src/commands/traits.rs`, `src/error.rs` and `src/constants.rs` are left out. They hold dispatch, message texts, paths and emojis. Of the error kinds, `InvalidCollectionSize` and `InsufficientLayers` are kept as `Failure` kinds; `MissingDirectory` belongs to the directory reading left out above.
