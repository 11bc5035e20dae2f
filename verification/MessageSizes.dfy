/** Sizes that messages and those who fill them go by. */
module MessageSizes {
  import opened Streams

  const MAX_MESSAGE_SIZE := 508
  const RECENT_SIZE := MAX_MESSAGE_SIZE - 64
  const LEN_STORY_CONFIRM := 60
  const SIZE_OF_PREFIX := 4
  const SIZE_OF_TOKEN := 4
  const SIZE_SERVER_BASE := SIZE_OF_PREFIX + 1 + 1 + SIZE_OF_TOKEN  // with the category and the type

  /** The bytes of a list of entries: length and payload, number, delay. */
  function EntriesSize(es: seq<Entry>): nat {
    if es == [] then 0 else EntriesSize(es[..|es| - 1]) + (1 + |es[|es| - 1].payload| + 4 + 8)
  }
}
