/**
 * Date-times as the bot handles them. A Python `datetime` is its wall-clock
 * reading plus, for an aware value, the UTC offset of its zone; the configured
 * zone is taken to have one fixed offset.
 */
module Time {
  import opened Wrappers

  const MinuteSeconds: int := 60
  const DaySeconds: int := 86400

  /** Wall-clock seconds from a fixed epoch and the UTC offset in seconds; None is a naive datetime. */
  datatype DateTime = DateTime(wall: int, offset: Option<int>)

  /** `dt.tzinfo is not None`. */
  predicate Aware(dt: DateTime) {
    dt.offset.Some?
  }

  /** `zone.localize(dt)`: the same wall-clock reading, interpreted in the zone. */
  function Localize(dt: DateTime, zone: int): (r: DateTime)
    ensures Aware(r) && r.wall == dt.wall && r.offset == Some(zone)
  {
    DateTime(dt.wall, Some(zone))
  }

  /** `dt + timedelta(seconds=n)`: the zone is kept. */
  function Plus(dt: DateTime, seconds: int): (r: DateTime)
    ensures r.offset == dt.offset && r.wall - dt.wall == seconds
  {
    DateTime(dt.wall + seconds, dt.offset)
  }

  /** The instant an aware datetime denotes, in UTC seconds. */
  function Instant(dt: DateTime): int
    requires Aware(dt)
  {
    dt.wall - dt.offset.value
  }
}
