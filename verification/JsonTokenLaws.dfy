/** What small token arrays spell, whatever text they point into. */
module JsonTokenLaws {
  import opened JsonTokens

  /** A leaf token spells its kind and exactly the text it covers, whatever its size says. */
  lemma LeafSpells(text: string, kind: Kind, a: nat, b: nat, size: int, v: Val)
    requires a <= b <= |text| && kind != Object && kind != Array
    ensures Spells([Token(kind, a, b, size)], text, 0, v) <==> v == Data(kind, text[a..b])
  {
  }

  /** An array token and as many leaves as it says spell them in order. */
  lemma PairSpells(text: string, a: nat, b: nat, c: nat, d: nat, e: nat, f: nat)
    requires a <= b <= |text| && c <= d <= |text| && e <= f <= |text|
    ensures var toks := [Token(Array, a, b, 2), Token(String, c, d, 0), Token(Primitive, e, f, 0)];
      Spells(toks, text, 0, Arr([Data(String, text[c..d]), Data(Primitive, text[e..f])]))
  {
    var toks := [Token(Array, a, b, 2), Token(String, c, d, 0), Token(Primitive, e, f, 0)];
    var x, y := Data(String, text[c..d]), Data(Primitive, text[e..f]);
    assert [x, y][..1] == [x] && [x][..0] == [];
    assert SpanItems([x]) == 1;
    assert Spells(toks, text, 1, x) && Spells(toks, text, 2, y);
    assert SpellsItems(toks, text, 1, [x]);
  }

  /** An object token, a string for the key and the value behind it. */
  lemma MemberSpells(text: string, a: nat, b: nat, c: nat, d: nat, kind: Kind, e: nat, f: nat)
    requires a <= b <= |text| && c <= d <= |text| && e <= f <= |text| && kind != Object && kind != Array
    ensures var toks := [Token(Object, a, b, 1), Token(String, c, d, 1), Token(kind, e, f, 0)];
      Spells(toks, text, 0, Obj([KeyVal(text[c..d], Data(kind, text[e..f]))]))
  {
    var toks := [Token(Object, a, b, 1), Token(String, c, d, 1), Token(kind, e, f, 0)];
    var m := KeyVal(text[c..d], Data(kind, text[e..f]));
    assert [m][..0] == [];
    assert Spells(toks, text, 2, m.val);
    assert SpellsMember(toks, text, 1, m);
  }

  /** A key that is no string, a child that is missing: nothing is spelled. */
  lemma NothingSpelled(text: string, a: nat, b: nat, kind: Kind, c: nat, d: nat, v: Val)
    requires a <= b <= |text| && c <= d <= |text| && kind != String
    ensures !Spells([Token(Array, a, b, 1)], text, 0, v) && !Spells([], text, 0, v)
    ensures !Spells([Token(Object, a, b, 1), Token(kind, c, d, 0), Token(String, c, d, 0)], text, 0, v)
  {
    var bad := [Token(Object, a, b, 1), Token(kind, c, d, 0), Token(String, c, d, 0)];
    if v.Arr? && |v.items| == 1 {
      assert v.items[..0] == [];
      assert !Spells([Token(Array, a, b, 1)], text, 1, v.items[0]);
      assert !SpellsItems([Token(Array, a, b, 1)], text, 1, v.items);
    }
    if v.Obj? && |v.members| == 1 {
      assert v.members[..0] == [];
      assert !SpellsMember(bad, text, 1, v.members[0]);
    }
  }

  /** A container of no children, or with a negative size, is empty. */
  lemma EmptySpells(text: string, a: nat, b: nat, size: int, v: Val)
    requires a <= b <= |text| && size <= 0
    ensures Spells([Token(Array, a, b, size)], text, 0, v) <==> v == Arr([])
    ensures Spells([Token(Object, a, b, size)], text, 0, v) <==> v == Obj([])
  {
  }

  /** What values cost: a leaf itself and its text; a container itself, its object and its list; an entry of a list;
      and a member itself and its key. */
  lemma BlocksOf(kind: Kind, x: string, key: string)
    ensures Blocks(Data(kind, x)) == 2 && Blocks(Arr([])) == 3 && Blocks(Obj([])) == 3
    ensures Blocks(Arr([Data(kind, x)])) == 6 && Blocks(Obj([KeyVal(key, Data(kind, x))])) == 8
  {
    var m := KeyVal(key, Data(kind, x));
    assert [Data(kind, x)][..0] == [] && [m][..0] == [];
    assert BlocksMember(m) == 4;
    assert BlocksMembers([m]) == 5;
  }
}
