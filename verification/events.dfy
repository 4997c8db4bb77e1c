/**
 * The documentation record of one analytics event, as the webapp receives it.
 *
 * The backend fills every text column it reads with `""` when the column is
 * NULL, and the webapp only ever tests these fields for truthiness, so an
 * absent text field and `""` are the same thing here. `deprecated` is optional
 * in the webapp type and is never filled by the backend, so it stays an option.
 */
module Events {
  import opened Common

  datatype Event = Event(
    eventName: string,
    description: string,
    format: string,
    eventType: string,
    tags: string,
    deprecated: Option<bool>)

  /** `!!item.deprecated`: only an explicit `true` marks an event deprecated. */
  predicate IsDeprecated(e: Event) {
    e.deprecated == Some(true)
  }
}
