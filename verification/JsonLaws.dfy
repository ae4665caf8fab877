/** What the limits of the writer are, in numbers, and what the reader takes and refuses, in texts. */
module JsonLaws {
  import opened Json
  import opened JsonStreamState

  // ---------------------------------------------------------------- what survives

  /** A text whose characters all stand for themselves: none is a control character, a quotation mark or a backslash. */
  predicate NeedsNoEscape(x: string) { forall c | c in x :: ' ' <= c && c != '"' && c != '\\' }

  /** Of the strings those of up to 255 such characters survive, and of the other leaves the numbers and literal names
      of that length. */
  lemma TextsSurvive(x: string)
    ensures Read(Written(Str(x))) == Some(Str(x)) <==> |x| <= 255 && NeedsNoEscape(x)
    ensures Read(Written(Prim(x))) == Some(Prim(x)) <==>
      |x| <= 255 && (x == "true" || x == "false" || x == "null" || (IsNumber(x) && forall c | c in x :: TokenChar(c)))
  {
    RoundTrip(Str(x));
    RoundTrip(Prim(x));
    assert !IsNumber("");
    if x == "true" || x == "false" || x == "null" {
      LiteralNames(x);
    }
    hide Read, Written, IsNumber, TokenChar;
  }

  lemma LiteralNames(x: string)
    requires x == "true" || x == "false" || x == "null"
    ensures forall c | c in x :: TokenChar(c)
  {
  }

  /** So does every integer of up to 255 characters. */
  lemma IntegersSurvive(n: int)
    requires |Decimal(n)| <= 255
    ensures Read(Written(Prim(Decimal(n)))) == Some(Prim(Decimal(n)))
  {
    IntegersArePlain(n);
    RoundTrip(Prim(Decimal(n)));
  }

  /** Arrays of up to 2^32 surviving items survive. */
  lemma ArraysSurvive(items: seq<Json>)
    requires |items| <= 0x1_0000_0000
    requires forall x | x in items :: Read(Written(x)) == Some(x)
    ensures Read(Written(Arr(items))) == Some(Arr(items))
  {
    forall x | x in items
      ensures Plain(x) && Narrow(x)
    {
      RoundTrip(x);
    }
    RoundTrip(Arr(items));
    hide Read, Written;
  }

  /** Objects of up to 2^32 members survive when their keys have up to 255 plain characters and their values survive. */
  lemma ObjectsSurvive(members: seq<Member>)
    requires |members| <= 0x1_0000_0000
    requires forall m | m in members :: |m.key| <= 255 && NeedsNoEscape(m.key) && Read(Written(m.val)) == Some(m.val)
    ensures Read(Written(Obj(members))) == Some(Obj(members))
  {
    forall m | m in members
      ensures PlainText(m.key) && Plain(m.val) && NarrowMember(m)
    {
      RoundTrip(m.val);
    }
    hide Read, Written, PlainText;
    assert NarrowMembers(members);
    RoundTrip(Obj(members));
  }

  // ---------------------------------------------------------------- the size of the buffer

  /** The block for a text has 256 characters, or twice as many as often as it takes to hold the text and its end, and
      no more often. */
  lemma FirstBlock(need: nat)
    ensures need <= 256 ==> Room(0, need) == if need == 0 then 0 else 256
    ensures need > 256 ==> need <= Room(0, need) < 2 * need
  {
  }

  /** A block that holds the text stays, and one that does not is doubled until it does. */
  lemma NextBlock(size: nat, need: nat)
    requires size > 0
    ensures need <= size ==> Room(size, need) == size
    ensures size < need ==> Room(size, need) == Room(2 * size, need)
  {
    if size < need {
      assert Grow(size, need) == Grow(2 * size, need);
      if 2 * size >= need {
        assert Grow(2 * size, need) == 2 * size;
      }
    }
  }

  // ---------------------------------------------------------------- what the reader takes and refuses

  /** Numbers of section 6 of RFC 8259, and texts that are none. */
  lemma Numbers()
    ensures IsNumber("0") && IsNumber("-0") && IsNumber("10") && IsNumber("0.5")
    ensures !IsNumber("") && !IsNumber("-") && !IsNumber("01") && !IsNumber("1.") && !IsNumber(".5") && !IsNumber("+1")
  {
  }

  lemma NumbersWithExponent()
    ensures IsNumber("-1.25e+3") && IsNumber("2E7")
    ensures !IsNumber("1e") && !IsNumber("1e+") && !IsNumber("0x1") && !IsNumber("1 ")
  {
  }

  /** The reader takes either empty container, and space around and between the signs. */
  lemma Taken()
    ensures Read("{}") == Some(Obj([])) && Read("null") == Some(Prim("null"))
  {
  }

  lemma TakenWithSpace()
    ensures Read(" [ ] ") == Some(Arr([]))
  {
  }

  /** Blanks, tabs and line ends. */
  predicate Blank(x: string) {
    forall k | 0 <= k < |x| :: x[k] == ' ' || x[k] == '\t' || x[k] == '\n' || x[k] == '\r'
  }

  lemma {:induction false} SkipsTo(s: string, i: nat, k: nat)
    requires i <= k <= |s| && Blank(s[i..k])
    ensures SkipSpace(s, i) == SkipSpace(s, k)
    decreases k - i
  {
    if i < k {
      assert s[i..k][0] == s[i] && s[i..k][1..] == s[i + 1..k];
      SkipsTo(s, i + 1, k);
    }
  }

  lemma SameValue(s: string, i: nat, k: nat)
    requires i <= |s| && k <= |s| && SkipSpace(s, i) == SkipSpace(s, k)
    ensures ReadValue(s, i) == ReadValue(s, k)
  {
    hide SkipSpace, ReadItems, ReadMembers, ReadChars, TokenEnd, IsPrimitive;
  }

  lemma BlankBefore(s: string, i: nat)
    requires i <= |s| && Blank(s[..i])
    ensures ReadValue(s, 0) == ReadValue(s, i)
  {
    assert s[..i] == s[0..i];
    SkipsTo(s, 0, i);
    SameValue(s, 0, i);
  }

  lemma BlankBehind(s: string, j: nat)
    requires j <= |s| && Blank(s[j..])
    ensures SkipSpace(s, j) == |s| && Closed(s, j)
  {
    assert s[j..] == s[j..|s|];
    SkipsTo(s, j, |s|);
    if j < |s| {
      assert s[j..][0] == s[j];
    }
  }

  lemma BlankFramed(s: string, i: nat, t: Json)
    requires Plain(t) && Narrow(t) && At(s, i, Written(t))
    requires Blank(s[..i]) && Blank(s[i + |Written(t)|..])
    ensures Read(s) == Some(t)
  {
    hide Written, Full, ReadValue, Plain, Narrow, SkipSpace, Closed, Blank;
    WrittenFull(t);
    BlankBefore(s, i);
    BlankBehind(s, i + |Written(t)|);
    ReadsBack(s, i, t);
  }

  /** Such space in front of a text that survives and behind it changes nothing. */
  lemma SpaceAround(a: string, t: Json, b: string)
    requires Read(Written(t)) == Some(t) && Blank(a) && Blank(b)
    ensures Read(a + Written(t) + b) == Some(t)
  {
    RoundTrip(t);
    var w := Written(t);
    hide Written, Read, Plain, Narrow, Blank;
    var s := a + w + b;
    assert s[..|a|] == a && s[|a|..|a| + |w|] == w && s[|a| + |w|..] == b;
    BlankFramed(s, |a|, t);
  }

  /** Each escape of section 7 of RFC 8259, and what it stands for. */
  lemma Escapes()
    ensures Escape("\"", 0) == Some(('"', 1)) && Escape("\\", 0) == Some(('\\', 1)) && Escape("/", 0) == Some(('/', 1))
    ensures Escape("b", 0) == Some(('\U{8}', 1)) && Escape("f", 0) == Some(('\U{C}', 1))
    ensures Escape("n", 0) == Some(('\n', 1)) && Escape("r", 0) == Some(('\r', 1)) && Escape("t", 0) == Some(('\t', 1))
    ensures Escape("u00Ac", 0) == Some(('\U{AC}', 5)) && Escape("uD800", 0) == None && Escape("u12", 0) == None
    ensures Escape("x", 0) == None && Escape("", 0) == None
  {
  }

  lemma TwoWritten()
    ensures Written(Arr([Prim("1"), Prim("2")])) == "[1,2]"
  {
    var a, b := Prim("1"), Prim("2");
    assert [a, b][..1] == [a] && [a][..0] == [];
    assert WrittenItems([a]) == "1";
  }

  /** An array of two numbers, as it is written and read. */
  lemma TwoNumbers()
    ensures Written(Arr([Prim("1"), Prim("2")])) == "[1,2]" && Read("[1,2]") == Some(Arr([Prim("1"), Prim("2")]))
  {
    hide Read, Written, IsPrimitive;
    var a, b := Prim("1"), Prim("2");
    OneTwo();
    RoundTrip(a);
    RoundTrip(b);
    ArraysSurvive([a, b]);
    TwoWritten();
  }

  lemma OneTwo()
    ensures IsPrimitive("1") && IsPrimitive("2")
  {
  }

  /** It refuses nothing at all, a name cut short, two values, and strings and containers without an end. */
  lemma Refused()
    ensures Read("") == None && Read("nul") == None && Read("1 2") == None
  {
  }

  lemma RefusedOpen()
    ensures Read("\"a") == None && Read("[") == None && Read("{\"a\"}") == None
  {
  }
}
