/** The immutable earthquake record of `Quake.java`. */
module Quakes {
  import opened Wrappers

  const MinLong: int := -0x8000_0000_0000_0000
  const MaxLong: int := 0x7FFF_FFFF_FFFF_FFFF

  /** Java `long`: a signed 64-bit integer. */
  type Int64 = x: int | MinLong <= x <= MaxLong

  /** One earthquake. The magnitude is a boxed `Double`, so it may be null;
      that is `None` here and never a stand-in number. The other three
      fields are set once by the constructor and have no setters, which a
      datatype value gives us by construction. */
  datatype Quake = Quake(
    mag: Option<real>,
    location: string,
    timeInMilliseconds: Int64,
    link: string)
  {
    function GetMag(): Option<real> { mag }
    function GetLocation(): string { location }
    function GetTimeInMilliseconds(): Int64 { timeInMilliseconds }
    function GetLink(): string { link }
  }

  /** The Java constructor: each getter afterwards hands back exactly the
      argument it was given, a null magnitude included. */
  function NewQuake(mag: Option<real>, location: string, timeInMilliseconds: Int64, link: string): (q: Quake)
    ensures q.GetMag() == mag
    ensures q.GetLocation() == location
    ensures q.GetTimeInMilliseconds() == timeInMilliseconds
    ensures q.GetLink() == link
  {
    Quake(mag, location, timeInMilliseconds, link)
  }

  /** A quake's observable state is exactly its four getters: as values,
      two quakes whose getters agree are indistinguishable. */
  lemma GettersDetermineQuake(q1: Quake, q2: Quake)
    requires q1.GetMag() == q2.GetMag()
    requires q1.GetLocation() == q2.GetLocation()
    requires q1.GetTimeInMilliseconds() == q2.GetTimeInMilliseconds()
    requires q1.GetLink() == q2.GetLink()
    ensures q1 == q2
  {
  }

  /** Building a quake from another one's getters gives back that quake. */
  lemma NewQuakeFromGetters(q: Quake)
    ensures NewQuake(q.GetMag(), q.GetLocation(), q.GetTimeInMilliseconds(), q.GetLink()) == q
  {
  }
}
