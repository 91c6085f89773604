/** GridTile: an integer (x, y) coordinate with value equality and a 32-bit hash
    (Assets/Scripts/GridTile.cs). */
module GridTiles {

  datatype GridTile = GridTile(x: int, y: int)

  /** What C# may pass to `Equals(object)`: null, a GridTile, or an object of another type. */
  datatype Obj = Null | Tile(tile: GridTile) | OtherType

  /** The `(x, y)` constructor. */
  function MakeTile(x: int, y: int): (t: GridTile)
    ensures t.x == x && t.y == y
  {
    GridTile(x, y)
  }

  /** `Equals(object)`: false for null or another type, otherwise coordinate-wise equality. */
  function Equals(self: GridTile, obj: Obj): (r: bool)
    ensures r <==> obj == Tile(self)
    ensures obj.Null? || obj.OtherType? ==> !r
  {
    match obj
    case Null => false
    case OtherType => false
    case Tile(other) => self.x == other.x && self.y == other.y
  }

  /** `operator ==`: delegates to Equals (the left operand must be non-null). */
  function OpEqual(o1: GridTile, o2: Obj): (r: bool)
    ensures r <==> o2 == Tile(o1)
  {
    Equals(o1, o2)
  }

  /** `operator !=`: the negation of Equals. */
  function OpNotEqual(o1: GridTile, o2: Obj): (r: bool)
    ensures r <==> o2 != Tile(o1)
  {
    !Equals(o1, o2)
  }

  lemma OperatorsAreComplements(o1: GridTile, o2: Obj)
    ensures OpNotEqual(o1, o2) == !OpEqual(o1, o2)
    ensures OpEqual(o1, o2) == Equals(o1, o2)
  {
  }

  const TWO_32: int := 0x1_0000_0000
  const INT_MIN: int := -0x8000_0000
  const INT_MAX: int := 0x7FFF_FFFF

  predicate IsInt32(v: int) { INT_MIN <= v <= INT_MAX }

  /** Two's-complement wrap-around of C# `unchecked` int arithmetic. */
  function Wrap32(v: int): (r: int)
    ensures IsInt32(r)
    ensures (r - v) % TWO_32 == 0
  {
    var m := v % TWO_32;
    if m <= INT_MAX then m else m - TWO_32
  }

  /** `GetHashCode`: hash = 17; hash = hash * 29 + x; hash = hash * 29 + y, each step wrapped. */
  function GetHashCode(t: GridTile): (h: int)
    requires IsInt32(t.x) && IsInt32(t.y)
    ensures IsInt32(h)
  {
    var h0 := 17;
    var h1 := Wrap32(Wrap32(h0 * 29) + t.x);
    Wrap32(Wrap32(h1 * 29) + t.y)
  }

  /** Wrapping after every step gives the wrapped value of the exact polynomial. */
  lemma {:induction false} HashIsWrappedPolynomial(t: GridTile)
    requires IsInt32(t.x) && IsInt32(t.y)
    ensures GetHashCode(t) == Wrap32((17 * 29 + t.x) * 29 + t.y)
  {
    var p1 := 17 * 29 + t.x;
    var h1 := Wrap32(Wrap32(17 * 29) + t.x);
    assert (h1 - p1) % TWO_32 == 0;
    var k1 := (h1 - p1) / TWO_32;
    assert h1 == p1 + k1 * TWO_32;
    var a := Wrap32(h1 * 29);
    var k2 := (a - h1 * 29) / TWO_32;
    assert a == h1 * 29 + k2 * TWO_32;
    var p := p1 * 29 + t.y;
    var h := Wrap32(a + t.y);
    var k3 := (h - (a + t.y)) / TWO_32;
    assert h == a + t.y + k3 * TWO_32;
    assert h == p + (k1 * 29 + k2 + k3) * TWO_32;
    WrapCongruent(h, p, k1 * 29 + k2 + k3);
  }

  /** Wrap32 is determined by the value modulo 2^32. */
  lemma WrapCongruent(a: int, b: int, k: int)
    requires a == b + k * TWO_32
    requires IsInt32(a)
    ensures Wrap32(b) == a
  {
    var r := Wrap32(b);
    assert (r - b) % TWO_32 == 0;
    var j := (r - b) / TWO_32;
    assert r == b + j * TWO_32;
    assert r - a == (j - k) * TWO_32;
    if j - k > 0 {
      assert false;
    } else if j - k < 0 {
      assert false;
    }
  }

  /** Tiles that are Equal hash equally. */
  lemma {:induction false} EqualTilesHashEqually(a: GridTile, b: GridTile)
    requires IsInt32(a.x) && IsInt32(a.y)
    requires Equals(a, Tile(b))
    ensures IsInt32(b.x) && IsInt32(b.y) && GetHashCode(a) == GetHashCode(b)
  {
  }
}
