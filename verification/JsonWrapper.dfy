/** The builder of jsmn/cc_jsmnWrapper.c: a recursive descent over flat tokens that allocates as it goes. */
module JsonWrapper {
  import opened JsonTokens
  import Json

  type Option<T> = Json.Option<T>

  lemma BlocksPrefix(items: seq<Val>, k: nat)
    requires k < |items|
    ensures BlocksItems(items[..k]) + Blocks(items[k]) + 1 <= BlocksItems(items)
    decreases |items|
  {
    var n := |items| - 1;
    if k < n {
      BlocksPrefix(items[..n], k);
      assert items[..n][..k] == items[..k];
    }
  }

  lemma BlocksMembersPrefix(members: seq<KeyVal>, k: nat)
    requires k < |members|
    ensures BlocksMembers(members[..k]) + BlocksMember(members[k]) + 1 <= BlocksMembers(members)
    decreases |members|
  {
    var n := |members| - 1;
    if k < n {
      BlocksMembersPrefix(members[..n], k);
      assert members[..n][..k] == members[..k];
    }
  }

  lemma SpellsAt(toks: seq<Token>, text: string, i: nat, items: seq<Val>, k: nat)
    requires InText(toks, text) && SpellsItems(toks, text, i, items) && k < |items|
    ensures SpellsItems(toks, text, i, items[..k]) && Spells(toks, text, i + SpanItems(items[..k]), items[k])
    decreases |items|
  {
    var n := |items| - 1;
    if k < n {
      SpellsAt(toks, text, i, items[..n], k);
      assert items[..n][..k] == items[..k];
    }
  }

  lemma SpellsMemberAt(toks: seq<Token>, text: string, i: nat, members: seq<KeyVal>, k: nat)
    requires InText(toks, text) && SpellsMembers(toks, text, i, members) && k < |members|
    ensures SpellsMembers(toks, text, i, members[..k])
    ensures SpellsMember(toks, text, i + SpanMembers(members[..k]), members[k])
    decreases |members|
  {
    var n := |members| - 1;
    if k < n {
      SpellsMemberAt(toks, text, i, members[..n], k);
      assert members[..n][..k] == members[..k];
    }
  }

  /** Whatever the tokens at i spell needs more blocks than there are. */
  ghost predicate NoValue(toks: seq<Token>, text: string, i: nat, luck: nat)
    requires InText(toks, text)
  {
    forall v :: Spells(toks, text, i, v) ==> Blocks(v) > luck
  }

  ghost predicate NoMember(toks: seq<Token>, text: string, i: nat, luck: nat)
    requires InText(toks, text)
  {
    forall m :: SpellsMember(toks, text, i, m) ==> BlocksMember(m) > luck
  }

  /** No list of n items from i on whose blocks, with one for each entry, can be had. */
  ghost predicate NoItems(toks: seq<Token>, text: string, i: nat, n: nat, luck: nat)
    requires InText(toks, text)
  {
    forall items :: |items| == n && SpellsItems(toks, text, i, items) ==> BlocksItems(items) > luck
  }

  ghost predicate NoMembers(toks: seq<Token>, text: string, i: nat, n: nat, luck: nat)
    requires InText(toks, text)
  {
    forall members :: |members| == n && SpellsMembers(toks, text, i, members) ==> BlocksMembers(members) > luck
  }

  lemma NoItemsFrom(toks: seq<Token>, text: string, i: nat, n: nat, list: seq<Val>, left: nat)
    requires InText(toks, text) && SpellsItems(toks, text, i, list) && |list| < n
    requires forall v :: Spells(toks, text, i + SpanItems(list), v) ==> Blocks(v) + 1 > left
    ensures NoItems(toks, text, i, n, left + BlocksItems(list))
  {
    forall items | |items| == n && SpellsItems(toks, text, i, items)
      ensures BlocksItems(items) > left + BlocksItems(list)
    {
      SpellsPrefix(toks, text, i, list, items);
      SpellsAt(toks, text, i, items, |list|);
      BlocksPrefix(items, |list|);
    }
  }

  lemma NoMembersFrom(toks: seq<Token>, text: string, i: nat, n: nat, list: seq<KeyVal>, left: nat)
    requires InText(toks, text) && SpellsMembers(toks, text, i, list) && |list| < n
    requires forall m :: SpellsMember(toks, text, i + SpanMembers(list), m) ==> BlocksMember(m) + 1 > left
    ensures NoMembers(toks, text, i, n, left + BlocksMembers(list))
  {
    forall ms | |ms| == n && SpellsMembers(toks, text, i, ms) ensures BlocksMembers(ms) > left + BlocksMembers(list) {
      SpellsMembersPrefix(toks, text, i, list, ms);
      SpellsMemberAt(toks, text, i, ms, |list|);
      BlocksMembersPrefix(ms, |list|);
    }
  }

  lemma BlocksHead(items: seq<Val>)
    requires items != []
    ensures BlocksItems(items) == Blocks(items[0]) + 1 + BlocksItems(items[1..])
    decreases |items|
  {
    if |items| > 1 {
      var n := |items| - 1;
      BlocksHead(items[..n]);
      assert items[1..][..n - 1] == items[..n][1..];
    }
  }

  lemma BlocksMembersHead(members: seq<KeyVal>)
    requires members != []
    ensures BlocksMembers(members) == BlocksMember(members[0]) + 1 + BlocksMembers(members[1..])
    decreases |members|
  {
    if |members| > 1 {
      var n := |members| - 1;
      BlocksMembersHead(members[..n]);
      assert members[1..][..n - 1] == members[..n][1..];
    }
  }

  /** luck is how many more allocations succeed before one fails; live is how many blocks are held. */
  class Wrapper {
    const str: string
    const tokens: array<Token>
    const count: nat
    var pos: nat
    var luck: nat
    var live: int

    ghost predicate Valid()
      reads this, tokens
    {
      count == tokens.Length && pos <= count && InText(tokens[..], str)
    }

    constructor (str: string, tokens: array<Token>, luck: nat)
      requires InText(tokens[..], str)
      ensures Valid() && this.str == str && this.tokens == tokens
      ensures pos == 0 && this.luck == luck && live == 0
    {
      this.str, this.tokens, count := str, tokens, tokens.Length;
      pos, this.luck, live := 0, luck, 0;
    }

    method Alloc() returns (ok: bool)
      modifies this`luck, this`live
      ensures ok == (old(luck) > 0)
      ensures luck == old(luck) - (if ok then 1 else 0) && live == old(live) + (if ok then 1 else 0)
    {
      ok := luck > 0;
      if ok { luck, live := luck - 1, live + 1; }
    }

    method Free(n: nat)
      modifies this`live
      ensures live == old(live) - n
    {
      live := live - n;
    }

    /** Freeing null does nothing. */
    method FreeText(data: Option<string>)
      modifies this`live
      ensures live == old(live) - if data.Some? then 1 else 0
    {
      if data.Some? { Free(1); }
    }

    /** Takes the next token, with a copy of its text if it is a leaf. */
    method Step() returns (tok: Option<Token>, data: Option<string>)
      requires Valid()
      modifies this`pos, this`luck, this`live
      ensures Valid()
      ensures var leaf := old(pos) < count && tokens[old(pos)].kind != Object && tokens[old(pos)].kind != Array;
        if old(pos) >= count || (leaf && old(luck) == 0) then
          tok.None? && data.None? && pos == old(pos) && luck == old(luck) && live == old(live)
        else
          && tok == Json.Some(tokens[old(pos)]) && pos == old(pos) + 1
          && luck == old(luck) - (if leaf then 1 else 0) && live == old(live) + (if leaf then 1 else 0)
          && data == if leaf then Json.Some(str[tok.value.start..tok.value.end]) else Json.None
    {
      tok, data := Json.None, Json.None;
      if pos >= count { return; }
      var t := tokens[pos];
      assert t in tokens[..];
      if t.kind == Undefined || t.kind == String || t.kind == Primitive {
        var ok := Alloc();
        if !ok { return; }
        var text := Copy(t.start, t.end);
        data := Json.Some(text);
      }
      pos := pos + 1;
      tok := Json.Some(t);
    }

    method Copy(start: nat, end: nat) returns (data: string)
      requires start <= end <= |str|
      ensures data == str[start..end]
    {
      data := "";
      for i := 0 to end - start
        invariant data == str[start..start + i]
      {
        data := data + [str[start + i]];
      }
    }

    // -------------------------------------------------------------- deleting

    method ValDelete(v: Val)
      modifies this`live
      ensures live == old(live) - Blocks(v)
      decreases v, 1
    {
      match v {
        case Data(_, _) => Free(1);
        case Arr(items) =>
          ItemsDelete(items);
          Free(2);
        case Obj(members) =>
          MembersDelete(members);
          Free(2);
      }
      Free(1);
    }

    /** Removes and deletes the entries of a list from its head on. */
    method ItemsDelete(items: seq<Val>)
      modifies this`live
      ensures live == old(live) - BlocksItems(items)
      decreases items, 0
    {
      var i := 0;
      while i < |items|
        invariant 0 <= i <= |items| && live == old(live) - BlocksItems(items) + BlocksItems(items[i..])
      {
        BlocksHead(items[i..]);
        assert items[i..][1..] == items[i + 1..];
        Free(1);
        ValDelete(items[i]);
        i := i + 1;
      }
    }

    method KeyvalDelete(m: KeyVal)
      modifies this`live
      ensures live == old(live) - BlocksMember(m)
      decreases m, 0
    {
      ValDelete(m.val);
      Free(2);
    }

    method MembersDelete(members: seq<KeyVal>)
      modifies this`live
      ensures live == old(live) - BlocksMembers(members)
      decreases members, 0
    {
      var i := 0;
      while i < |members|
        invariant 0 <= i <= |members| && live == old(live) - BlocksMembers(members) + BlocksMembers(members[i..])
      {
        BlocksMembersHead(members[i..]);
        assert members[i..][1..] == members[i + 1..];
        Free(1);
        KeyvalDelete(members[i]);
        i := i + 1;
      }
    }

    // -------------------------------------------------------------- building

    /** Appends one value to a list, or reports that it needs more than there is. */
    method ItemWrap(items: seq<Val>) returns (ok: bool, more: seq<Val>)
      requires Valid()
      modifies this`pos, this`luck, this`live
      ensures Valid() && old(pos) <= pos
      ensures ok ==> |more| == |items| + 1 && more[..|items|] == items && var v := more[|items|];
        && Spells(tokens[..], str, old(pos), v) && pos == old(pos) + Span(v)
        && luck == old(luck) - Blocks(v) - 1 && live == old(live) + Blocks(v) + 1
      ensures !ok ==> live == old(live)
      ensures !ok ==> forall v :: Spells(tokens[..], str, old(pos), v) ==> Blocks(v) + 1 > old(luck)
      decreases count - pos, 3
    {
      more := items;
      var val := ValWrap();
      if val.None? { return false, more; }
      ok := Alloc();
      if ok {
        more := items + [val.value];
      } else {
        forall v | Spells(tokens[..], str, old(pos), v) ensures Blocks(v) + 1 > old(luck) {
          SpellsOne(tokens[..], str, old(pos), v, val.value);
        }
        ValDelete(val.value);
      }
    }

    /** The list is built item by item; a failure part-way deletes what was built. */
    method ItemsWrap(size: int) returns (list: Option<seq<Val>>)
      requires Valid()
      modifies this`pos, this`luck, this`live
      ensures Valid() && old(pos) <= pos
      ensures list.Some? ==>
        && |list.value| == Count(size) && SpellsItems(tokens[..], str, old(pos), list.value)
        && pos == old(pos) + SpanItems(list.value)
        && luck == old(luck) - BlocksItems(list.value) && live == old(live) + BlocksItems(list.value)
      ensures list.None? ==> live == old(live) && NoItems(tokens[..], str, old(pos), Count(size), old(luck))
      decreases count - pos, 4
    {
      hide NoItems, Spells;
      var items: seq<Val> := [];
      var i := 0;
      while i < size
        invariant Valid() && 0 <= i <= Count(size) && |items| == i
        invariant SpellsItems(tokens[..], str, old(pos), items) && pos == old(pos) + SpanItems(items)
        invariant luck == old(luck) - BlocksItems(items) && live == old(live) + BlocksItems(items)
        decreases size - i
      {
        ghost var left := luck;
        var ok, more := ItemWrap(items);
        if !ok {
          NoItemsFrom(tokens[..], str, old(pos), Count(size), items, left);
          ItemsDelete(items);
          return Json.None;
        }
        items := more;
        i := i + 1;
      }
      list := Json.Some(items);
    }

    /** An array, with its own block and the list's. */
    method ArrayWrap() returns (items: Option<seq<Val>>)
      requires Valid()
      modifies this`pos, this`luck, this`live
      ensures Valid() && old(pos) <= pos
      ensures items.Some? ==> var v := Arr(items.value);
        && Spells(tokens[..], str, old(pos), v) && pos == old(pos) + Span(v)
        && luck == old(luck) - Blocks(v) + 1 && live == old(live) + Blocks(v) - 1
      ensures items.None? ==> live == old(live)
      ensures items.None? ==> forall list :: Spells(tokens[..], str, old(pos), Arr(list)) ==>
        Blocks(Arr(list)) - 1 > old(luck)
      decreases count - pos, 1
    {
      items := Json.None;
      var ok := Alloc();
      if !ok { return; }
      ok := Alloc();
      if !ok { Free(1); return; }
      var tok, data := Step();
      if tok.None? { Free(2); return; }
      if tok.value.kind != Array {
        FreeText(data);
        Free(2);
        return;
      }
      items := ItemsWrap(tok.value.size);
      if items.None? { Free(2); }
    }

    method MemberWrap(members: seq<KeyVal>) returns (ok: bool, more: seq<KeyVal>)
      requires Valid()
      modifies this`pos, this`luck, this`live
      ensures Valid() && old(pos) <= pos
      ensures ok ==> |more| == |members| + 1 && more[..|members|] == members && var m := more[|members|];
        && SpellsMember(tokens[..], str, old(pos), m) && pos == old(pos) + 1 + Span(m.val)
        && luck == old(luck) - BlocksMember(m) - 1 && live == old(live) + BlocksMember(m) + 1
      ensures !ok ==> live == old(live)
      ensures !ok ==> forall m :: SpellsMember(tokens[..], str, old(pos), m) ==> BlocksMember(m) + 1 > old(luck)
      decreases count - pos, 3
    {
      more := members;
      var kv := KeyvalWrap();
      if kv.None? { return false, more; }
      ok := Alloc();
      if ok {
        more := members + [kv.value];
      } else {
        forall m | SpellsMember(tokens[..], str, old(pos), m) ensures BlocksMember(m) + 1 > old(luck) {
          SpellsOne(tokens[..], str, old(pos) + 1, m.val, kv.value.val);
        }
        KeyvalDelete(kv.value);
      }
    }

    method MembersWrap(size: int) returns (list: Option<seq<KeyVal>>)
      requires Valid()
      modifies this`pos, this`luck, this`live
      ensures Valid() && old(pos) <= pos
      ensures list.Some? ==>
        && |list.value| == Count(size) && SpellsMembers(tokens[..], str, old(pos), list.value)
        && pos == old(pos) + SpanMembers(list.value)
        && luck == old(luck) - BlocksMembers(list.value) && live == old(live) + BlocksMembers(list.value)
      ensures list.None? ==> live == old(live) && NoMembers(tokens[..], str, old(pos), Count(size), old(luck))
      decreases count - pos, 4
    {
      hide NoMembers, SpellsMember, BlocksMember;
      var members: seq<KeyVal> := [];
      var i := 0;
      while i < size
        invariant Valid() && 0 <= i <= Count(size) && |members| == i
        invariant SpellsMembers(tokens[..], str, old(pos), members) && pos == old(pos) + SpanMembers(members)
        invariant luck == old(luck) - BlocksMembers(members) && live == old(live) + BlocksMembers(members)
        decreases size - i
      {
        ghost var left := luck;
        var ok, more := MemberWrap(members);
        if !ok {
          NoMembersFrom(tokens[..], str, old(pos), Count(size), members, left);
          MembersDelete(members);
          return Json.None;
        }
        members := more;
        i := i + 1;
      }
      list := Json.Some(members);
    }

    method ObjectWrap() returns (members: Option<seq<KeyVal>>)
      requires Valid()
      modifies this`pos, this`luck, this`live
      ensures Valid() && old(pos) <= pos
      ensures members.Some? ==> var v := Obj(members.value);
        && Spells(tokens[..], str, old(pos), v) && pos == old(pos) + Span(v)
        && luck == old(luck) - Blocks(v) + 1 && live == old(live) + Blocks(v) - 1
      ensures members.None? ==> live == old(live)
      ensures members.None? ==> forall list :: Spells(tokens[..], str, old(pos), Obj(list)) ==>
        Blocks(Obj(list)) - 1 > old(luck)
      decreases count - pos, 1
    {
      members := Json.None;
      var ok := Alloc();
      if !ok { return; }
      ok := Alloc();
      if !ok { Free(1); return; }
      var tok, data := Step();
      if tok.None? { Free(2); return; }
      if tok.value.kind != Object {
        FreeText(data);
        Free(2);
        return;
      }
      members := MembersWrap(tok.value.size);
      if members.None? { Free(2); }
    }

    /**
     * The value spelled from the current token on, if its blocks can be had; otherwise nothing, and every block taken
     * on the way is given back.
     */
    method ValWrap() returns (val: Option<Val>)
      requires Valid()
      modifies this`pos, this`luck, this`live
      ensures Valid() && old(pos) <= pos
      ensures val.Some? ==>
        && Spells(tokens[..], str, old(pos), val.value) && pos == old(pos) + Span(val.value)
        && luck == old(luck) - Blocks(val.value) && live == old(live) + Blocks(val.value)
      ensures val.None? ==> live == old(live) && NoValue(tokens[..], str, old(pos), old(luck))
      decreases count - pos, 2
    {
      val := Json.None;
      var ok := Alloc();
      if !ok { return; }
      if pos >= count { Free(1); return; }
      var tok := tokens[pos];
      if tok.kind == Object {
        var obj := ObjectWrap();
        if obj.None? { Free(1); return; }
        val := Json.Some(Obj(obj.value));
      } else if tok.kind == Array {
        var arr := ArrayWrap();
        if arr.None? { Free(1); return; }
        val := Json.Some(Arr(arr.value));
      } else {
        var t, data := Step();
        if t.None? || data.None? {
          FreeText(data);
          Free(1);
          return;
        }
        val := Json.Some(Data(tok.kind, data.value));
      }
    }

    method KeyvalWrap() returns (kv: Option<KeyVal>)
      requires Valid()
      modifies this`pos, this`luck, this`live
      ensures Valid() && old(pos) <= pos
      ensures kv.Some? ==>
        && SpellsMember(tokens[..], str, old(pos), kv.value) && pos == old(pos) + 1 + Span(kv.value.val)
        && luck == old(luck) - BlocksMember(kv.value) && live == old(live) + BlocksMember(kv.value)
      ensures kv.None? ==> live == old(live) && NoMember(tokens[..], str, old(pos), old(luck))
      decreases count - pos, 2
    {
      kv := Json.None;
      var ok := Alloc();
      if !ok { return; }
      var tok, key := Step();
      if tok.None? { Free(1); return; }
      if tok.value.kind != String {
        FreeText(key);
        Free(1);
        return;
      }
      var val := ValWrap();
      if val.None? { Free(2); return; }
      kv := Json.Some(KeyVal(key.value, val.value));
    }
  }

  /**
   * The round trip. Tokens that begin with a flattened value, over a text that holds its letters, are wrapped into that
   * value again if there are enough blocks, taking exactly the value's tokens; with fewer blocks nothing is built and
   * nothing stays allocated.
   */
  method WrapFlattened(v: Val, tokens: array<Token>, str: string, luck: nat) returns (r: Option<Val>, w: Wrapper)
    requires Proper(v) && InText(tokens[..], str)
    requires Within(tokens[..], 0, Flatten(v, 0)) && Within(str, 0, Letters(v))
    ensures r == if Blocks(v) <= luck then Json.Some(v) else Json.None
    ensures r.Some? ==> w.pos == |Flatten(v, 0)| && w.live == Blocks(v)
    ensures r.None? ==> w.live == 0
  {
    hide Spells, Blocks, Flatten, Letters, Within, Proper;
    FlattenSpells(tokens[..], str, 0, v, 0);
    w := new Wrapper(str, tokens, luck);
    r := w.ValWrap();
    if r.Some? { SpellsOne(tokens[..], str, 0, v, r.value); }
  }
}
