/**
 * A player's stock of discs: three counters. The stock class of the game is not part of
 * this model; it is represented by the three counters that the engines read and write
 * (Has, Consume, ReturnDisc, SetStock). A counter is addressed by the underlying value of
 * the engine's disc-kind enum: slot 0 is the plain disc (Ordinary in LineUpClassic, Boring
 * in GameEngine), slot 1 the magnetic disc, slot 2 the column-clearing disc (Boring in
 * LineUpClassic, Drill in GameEngine).
 */
module DiscStock {

  type Slot = k: nat | k < 3

  datatype Stock = Stock(ordinary: int, magnetic: int, boring: int)

  function Count(s: Stock, k: Slot): int {
    match k
    case 0 => s.ordinary
    case 1 => s.magnetic
    case 2 => s.boring
  }

  /** The stock holds at least one disc of kind `k`. */
  predicate Has(s: Stock, k: Slot) {
    Count(s, k) > 0
  }

  /** One disc of kind `k` leaves the stock; the other counters stay. */
  function Consume(s: Stock, k: Slot): (r: Stock)
    ensures Count(r, k) == Count(s, k) - 1
    ensures forall j: Slot :: j != k ==> Count(r, j) == Count(s, j)
  {
    match k
    case 0 => s.(ordinary := s.ordinary - 1)
    case 1 => s.(magnetic := s.magnetic - 1)
    case 2 => s.(boring := s.boring - 1)
  }

  /** Returned discs always come back as plain discs, whatever kind they were on the board. */
  function ReturnDisc(s: Stock, n: int): (r: Stock)
    ensures Count(r, 0) == Count(s, 0) + n
    ensures Count(r, 1) == Count(s, 1) && Count(r, 2) == Count(s, 2)
  {
    s.(ordinary := s.ordinary + n)
  }

  /**
   * The allocation a new player receives for a board of `cells` cells: two magnetic discs,
   * two of the clearing kind and the rest of half the board as plain discs.
   */
  function InitialStock(cells: int): (s: Stock)
    ensures Count(s, 1) == 2 && Count(s, 2) == 2
    ensures Count(s, 0) + Count(s, 1) + Count(s, 2) == cells / 2
  {
    Stock(cells / 2 - 4, 2, 2)
  }

  /** Consuming a disc the stock holds never drives a counter negative. */
  lemma ConsumeKeepsNonNegative(s: Stock, k: Slot)
    requires Has(s, k) && forall j: Slot :: Count(s, j) >= 0
    ensures forall j: Slot :: Count(Consume(s, k), j) >= 0
  {
  }
}
