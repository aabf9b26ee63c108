/** set_key.c: the list of weak keys and its lookup.  The lookup compares as many bytes as a pointer
    has, for sizeof is applied to the parameter and not to the key. */
module DesWeakKeys {

  const NUM_WEAK_KEY := 16

  const WEAK_KEYS: seq<seq<bv8>> := [
    // weak keys
    [0x01, 0x01, 0x01, 0x01, 0x01, 0x01, 0x01, 0x01],
    [0xFE, 0xFE, 0xFE, 0xFE, 0xFE, 0xFE, 0xFE, 0xFE],
    [0x1F, 0x1F, 0x1F, 0x1F, 0x1F, 0x1F, 0x1F, 0x1F],
    [0xE0, 0xE0, 0xE0, 0xE0, 0xE0, 0xE0, 0xE0, 0xE0],
    // semi-weak keys
    [0x01, 0xFE, 0x01, 0xFE, 0x01, 0xFE, 0x01, 0xFE],
    [0xFE, 0x01, 0xFE, 0x01, 0xFE, 0x01, 0xFE, 0x01],
    [0x1F, 0xE0, 0x1F, 0xE0, 0x0E, 0xF1, 0x0E, 0xF1],
    [0xE0, 0x1F, 0xE0, 0x1F, 0xF1, 0x0E, 0xF1, 0x0E],
    [0x01, 0xE0, 0x01, 0xE0, 0x01, 0xF1, 0x01, 0xF1],
    [0xE0, 0x01, 0xE0, 0x01, 0xF1, 0x01, 0xF1, 0x01],
    [0x1F, 0xFE, 0x1F, 0xFE, 0x0E, 0xFE, 0x0E, 0xFE],
    [0xFE, 0x1F, 0xFE, 0x1F, 0xFE, 0x0E, 0xFE, 0x0E],
    [0x01, 0x1F, 0x01, 0x1F, 0x01, 0x0E, 0x01, 0x0E],
    [0x1F, 0x01, 0x1F, 0x01, 0x0E, 0x01, 0x0E, 0x01],
    [0xE0, 0xFE, 0xE0, 0xFE, 0xF1, 0xFE, 0xF1, 0xFE],
    [0xFE, 0xE0, 0xFE, 0xE0, 0xFE, 0xF1, 0xFE, 0xF1]]

  /** The size of a pointer on the machines the library is built for. */
  type Width = n: nat | n == 4 || n == 8 witness 8

  /** The first bytes of some listed key are those of the key. */
  ghost predicate Listed(key: seq<bv8>, width: Width)
    requires |key| == 8
  {
    exists i :: 0 <= i < NUM_WEAK_KEY && WEAK_KEYS[i][..width] == key[..width]
  }

  /** des_is_weak_key. */
  method IsWeakKey(key: array<bv8>, width: Width) returns (ret: bool)
    requires key.Length == 8
    ensures ret <==> Listed(key[..], width)
  {
    ghost var whole := key[..];
    for i := 0 to NUM_WEAK_KEY
      invariant forall j :: 0 <= j < i ==> WEAK_KEYS[j][..width] != whole[..width]
    {
      if WEAK_KEYS[i][..width] == key[..width] {
        assert key[..width] == whole[..width];
        return true;
      }
      assert key[..width] == whole[..width];
    }
    ret := false;
  }
}
