/**
 * The flashed items: the two fixed enumerations the game draws from and the
 * `{shape, color}` record shown on every tick (src/App.jsx:5-10).
 */
module Items {

  /** The shape names, in the order the guess buttons are rendered. */
  const Shapes: seq<string> := ["circle", "square", "triangle", "star"]

  /** The colour names a flash may be painted in. */
  const Colors: seq<string> := ["red", "blue", "green", "yellow", "purple"]

  /** One flash: a shape name and a colour name. */
  datatype FlashItem = FlashItem(shape: string, color: string)

  /** An item both of whose parts come from the fixed enumerations. */
  predicate WellFormed(item: FlashItem) {
    item.shape in Shapes && item.color in Colors
  }

  /** The shape names of a sequence of items, position by position. */
  function ShapesOf(items: seq<FlashItem>): (r: seq<string>)
    ensures |r| == |items|
    ensures forall i :: 0 <= i < |items| ==> r[i] == items[i].shape
  {
    if items == [] then [] else ShapesOf(items[..|items| - 1]) + [items[|items| - 1].shape]
  }

  /**
   * `getRandomElement(arr)`: the element at index `floor(roll * |arr|)`, where
   * `roll` is the value `Math.random()` returned, a number in [0, 1).
   */
  function RandomElement(arr: seq<string>, roll: real): (x: string)
    requires |arr| > 0 && 0.0 <= roll < 1.0
    ensures x in arr
  {
    var n := |arr| as real;
    assert 0.0 <= roll * n < n;
    arr[(roll * n).Floor]
  }

  /**
   * Which element a roll picks: index `i` exactly when `roll * |arr|` lies in
   * [i, i + 1), so each element has a share 1/|arr| of the rolls.
   */
  lemma RandomElementPicks(arr: seq<string>, roll: real, i: nat)
    requires i < |arr| && 0.0 <= roll < 1.0
    requires i as real <= roll * |arr| as real < i as real + 1.0
    ensures RandomElement(arr, roll) == arr[i]
  {
  }

  /** A tick's item: one roll for the shape, then one for the colour (src/App.jsx:84-86). */
  function Draw(shapeRoll: real, colorRoll: real): (item: FlashItem)
    requires 0.0 <= shapeRoll < 1.0 && 0.0 <= colorRoll < 1.0
    ensures WellFormed(item)
  {
    FlashItem(RandomElement(Shapes, shapeRoll), RandomElement(Colors, colorRoll))
  }
}
