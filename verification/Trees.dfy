/** Object graphs unfolded to values. */
module Trees {
  import opened Schema

  /** The columns read, and one slot per requested edge. */
  datatype Tree = Tree(row: Row, slots: map<Edge, Slot>)
  datatype Slot = Missing | Single(tree: Tree) | Many(trees: seq<Tree>)

  /** A to-one slot holds the first neighbour, if any; the others hold the list. */
  function SlotOf(e: Edge, trees: seq<Tree>): Slot {
    if !ShapeOf(e).ManyToOne? then Many(trees)
    else if trees == [] then Missing
    else Single(trees[0])
  }
}
