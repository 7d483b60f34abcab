/** Outcomes of the generator's operations. The source either returns an
    `ArtGenError` or panics (an `unwrap`, an out-of-range slice or index, an
    explicit `panic!`); each abort of the modelled operations is a `Failure`
    here. */
module Errors {

  datatype Option<+T> = None | Some(value: T)

  datatype Failure =
    | NoLayers                         // `rarity_tracker[0]` or `layers[0]` on an empty list
    | InvalidCollectionSize            // the requested count does not parse as a `u128`
    | InvalidWeight(file: string)      // no file stem, or its first two characters are not a `u128`
    | EmptyDistribution(category: nat) // `WeightedAliasIndex::new` refuses: no entries or all weights zero
    | InvalidLabel(file: string)       // a file or parent stem is missing, or byte 2 of it is out of range or inside a character
    | InsufficientLayers               // the eleventh consecutive duplicate candidate of one slot

  datatype Result<+T> = Ok(value: T) | Err(error: Failure)

  /** The result of a command that produces nothing but side effects. */
  datatype Outcome = Pass | Fail(error: Failure)
}
