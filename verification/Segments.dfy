/** Segments, as the cache identifies them: by partition and column, whatever their byte range. */
module Segments {
  type Key(==, !new)
}
