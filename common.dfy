/** Shared result types of the revup command pipeline. */
module Common {

  datatype Option<+T> = None | Some(value: T)

  /** Everything that ends a call of the pipeline early. */
  datatype Error =
    | LaunchFailed       // the rev2 executable could not be started
    | NoEntitiesFound    // walk_entities: no "New Entities" marker, or no entity line after it
    | EntityIndexPanic   // walk_entities indexes token 2 of an entity line that has fewer tokens
    | StoreMissing       // .env could not be opened in append mode (it does not exist)
    | ConfigUnreadable   // the command file could not be opened or parsed

  datatype Result<+T> = Ok(value: T) | Err(error: Error)

  datatype Outcome = Pass | Fail(error: Error)
}
