/** The event record of the backend, every field of which may be null on the wire. */
module Dto {
  import opened Common

  datatype EventDto = EventDto(
    eventName: Option<string>,
    description: Option<string>,
    format: Option<string>,
    eventType: Option<string>,
    tags: Option<string>,
    deprecated: Option<bool>)
}
