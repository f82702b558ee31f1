/**
 The `marked` byte of `lgc.h`: every bit trick of the collector means what the colours in
 `LuaHeap.dfy` say.  Bits 0 and 1 are the two whites, bit 2 is black, bit 5 is "fixed", and bit 6 marks
 the main thread, which even `luaC_freeall` keeps.
 */
module LuaMarkBits {
  import opened LuaHeap
  import I = LuaInvariants

  const WHITE0: bv8 := 1
  const WHITE1: bv8 := 2
  const BLACK: bv8 := 4
  const FIXED: bv8 := 32
  const SFIXED: bv8 := 64
  const WHITEBITS: bv8 := WHITE0 | WHITE1
  const MASKMARKS: bv8 := !(BLACK | WHITEBITS)

  /** At most one colour bit is set. */
  predicate WellFormed(m: bv8) {
    m & 7 == 0 || m & 7 == WHITE0 || m & 7 == WHITE1 || m & 7 == BLACK
  }

  function ColourOf(m: bv8): Colour {
    if m & BLACK != 0 then Black
    else if m & WHITE0 != 0 then White(false)
    else if m & WHITE1 != 0 then White(true)
    else Gray
  }

  /** Everything in the byte that is not colour. */
  function Rest(m: bv8): bv8 {
    m & 0xf8
  }

  /** `g->currentwhite`: one white bit, and the fixed bit that `lua_newstate` puts in. */
  predicate CurrentWhite(cw: bv8) {
    cw == WHITE0 | FIXED || cw == WHITE1 | FIXED
  }

  function Which(cw: bv8): bool {
    cw & WHITE1 != 0
  }

  predicate IsWhite(m: bv8)
    requires WellFormed(m)
    ensures IsWhite(m) <==> ColourOf(m).White?
  {
    m & WHITEBITS != 0
  }

  predicate IsBlack(m: bv8)
    ensures IsBlack(m) <==> ColourOf(m).Black?
  {
    m & BLACK != 0
  }

  predicate IsGray(m: bv8)
    requires WellFormed(m)
    ensures IsGray(m) <==> ColourOf(m).Gray?
  {
    !IsBlack(m) && !IsWhite(m)
  }

  /** `otherwhite` flips the white and keeps the fixed bit, so that it also serves as the mask of
      `sweeplist` and as the next current white. */
  function OtherWhite(cw: bv8): (r: bv8)
    requires CurrentWhite(cw)
    ensures CurrentWhite(r) && Which(r) == !Which(cw) && r & FIXED != 0
  {
    cw ^ WHITEBITS
  }

  predicate IsDead(cw: bv8, m: bv8)
    requires CurrentWhite(cw) && WellFormed(m)
    ensures IsDead(cw, m) <==> ColourOf(m) == White(!Which(cw))
  {
    m & OtherWhite(cw) & WHITEBITS != 0
  }

  /** The test of `sweeplist`: an object stays if it is not dead, or if it is fixed. */
  predicate Survives(cw: bv8, m: bv8)
    requires CurrentWhite(cw) && WellFormed(m)
    ensures Survives(cw, m) <==> !IsDead(cw, m) || m & FIXED != 0
  {
    (m ^ WHITEBITS) & OtherWhite(cw) != 0
  }

  /** The same test in `luaC_freeall`, whose current white has both white bits. */
  predicate SurvivesEnd(m: bv8)
    ensures SurvivesEnd(m) <==> m & SFIXED != 0
  {
    (m ^ WHITEBITS) & ((WHITEBITS | SFIXED) ^ WHITEBITS) != 0
  }

  function NewWhite(cw: bv8): (r: bv8)
    requires CurrentWhite(cw)
    ensures WellFormed(r) && ColourOf(r) == White(Which(cw)) && Rest(r) == 0
  {
    cw & WHITEBITS
  }

  function MakeWhite(cw: bv8, m: bv8): (r: bv8)
    requires CurrentWhite(cw)
    ensures WellFormed(r) && ColourOf(r) == White(Which(cw)) && Rest(r) == Rest(m)
  {
    (m & MASKMARKS) | NewWhite(cw)
  }

  function ChangeWhite(m: bv8): (r: bv8)
    requires WellFormed(m) && IsWhite(m)
    ensures WellFormed(r) && ColourOf(r) == White(!ColourOf(m).which) && Rest(r) == Rest(m)
  {
    m ^ WHITEBITS
  }

  function White2Gray(m: bv8): (r: bv8)
    requires WellFormed(m) && IsWhite(m)
    ensures WellFormed(r) && ColourOf(r) == Gray && Rest(r) == Rest(m)
  {
    m & !WHITEBITS
  }

  function Gray2Black(m: bv8): (r: bv8)
    requires WellFormed(m) && IsGray(m)
    ensures WellFormed(r) && ColourOf(r) == Black && Rest(r) == Rest(m)
  {
    m | BLACK
  }

  function Black2Gray(m: bv8): (r: bv8)
    requires WellFormed(m) && IsBlack(m)
    ensures WellFormed(r) && ColourOf(r) == Gray && Rest(r) == Rest(m)
  {
    m & !BLACK
  }

  // ---------- The collector's marks ----------

  /** The bytes of all objects carry these marks. */
  predicate Shows(bytes: map<Ref, bv8>, marked: Marks, fixed: set<Ref>) {
    && bytes.Keys == marked.Keys
    && forall o :: o in bytes ==>
        WellFormed(bytes[o]) && ColourOf(bytes[o]) == marked[o] && (bytes[o] & FIXED != 0 <==> o in fixed)
  }

  /** The sweep tests on bytes what the collector's model tests on marks. */
  lemma TestsShow(bytes: map<Ref, bv8>, marked: Marks, fixed: set<Ref>, cw: bv8, o: Ref)
    requires Shows(bytes, marked, fixed) && CurrentWhite(cw) && o in bytes
    ensures Survives(cw, bytes[o]) <==> !I.IsDead(marked, Which(cw), o) || o in fixed
    ensures IsDead(OtherWhite(cw), bytes[o]) <==> I.IsDead(marked, !Which(cw), o)
  {
  }

  /** The other bits of a byte hold the fixed bit. */
  lemma RestFixed(m: bv8, m': bv8)
    requires Rest(m) == Rest(m')
    ensures m & FIXED == m' & FIXED
  {
    assert m & FIXED == (m & 0xf8) & FIXED && m' & FIXED == (m' & 0xf8) & FIXED;
  }

  /** Each macro on one byte is the model's change of colour. */
  lemma MacrosShow(bytes: map<Ref, bv8>, marked: Marks, fixed: set<Ref>, cw: bv8, o: Ref)
    requires Shows(bytes, marked, fixed) && CurrentWhite(cw) && o in bytes
    ensures Shows(bytes[o := MakeWhite(cw, bytes[o])], marked[o := White(Which(cw))], fixed)
    ensures marked[o].White? ==> Shows(bytes[o := ChangeWhite(bytes[o])], marked[o := White(!marked[o].which)], fixed)
    ensures marked[o].White? ==> Shows(bytes[o := White2Gray(bytes[o])], marked[o := Gray], fixed)
    ensures marked[o].Gray? ==> Shows(bytes[o := Gray2Black(bytes[o])], marked[o := Black], fixed)
    ensures marked[o].Black? ==> Shows(bytes[o := Black2Gray(bytes[o])], marked[o := Gray], fixed)
  {
    RestFixed(bytes[o], MakeWhite(cw, bytes[o]));
    if marked[o].White? {
      RestFixed(bytes[o], ChangeWhite(bytes[o]));
      RestFixed(bytes[o], White2Gray(bytes[o]));
    }
    if marked[o].Gray? {
      RestFixed(bytes[o], Gray2Black(bytes[o]));
    }
    if marked[o].Black? {
      RestFixed(bytes[o], Black2Gray(bytes[o]));
    }
  }
}
