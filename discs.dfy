/**
 * The disc hierarchy of the cell-grid board: four kinds of disc, each with an owner id
 * (0 for none). A disc never changes once made, so it is a value here.
 */
module Discs {

  datatype DiscKind = Ordinary | Magnetic | Boring | Explosive

  /** A disc of `kind` owned by player `owner` (0 = none/unassigned). */
  datatype Disc = Disc(kind: DiscKind, owner: int)

  /** The parameterless constructor of each disc class: no owner. */
  function Unowned(kind: DiscKind): (d: Disc)
    ensures d.kind == kind && d.owner == 0
  {
    Disc(kind, 0)
  }

  /** The owner constructor of each disc class: the owner id is kept as given. */
  function Owned(kind: DiscKind, ownerId: int): (d: Disc)
    ensures d.kind == kind && d.owner == ownerId
  {
    Disc(kind, ownerId)
  }

  /**
   * The disc factory: a new unowned disc of the requested kind; Ordinary is the default
   * branch of the factory's switch.
   */
  function Create(kind: DiscKind): (d: Disc)
    ensures d.kind == kind && d.owner == 0
  {
    match kind
    case Magnetic => Unowned(Magnetic)
    case Boring => Unowned(Boring)
    case Explosive => Unowned(Explosive)
    case Ordinary => Unowned(Ordinary)
  }

  /** Different kinds give different discs, so the factory loses nothing of the kind. */
  lemma CreateInjective(k1: DiscKind, k2: DiscKind)
    ensures Create(k1) == Create(k2) <==> k1 == k2
  {
  }
}
