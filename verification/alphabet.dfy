/** The alphabet builder, `set_character_table`: it copies the enabled
    character sets, in the fixed order lowercase, uppercase, digits,
    symbols, to the front of the 94-byte `character_table` and adds their
    sizes to `num_chars`. The three variants of the program share this
    logic; they differ only in where the class selection is read from
    (flag bits or bool fields), which their own modules map to `Classes`. */
module Alphabet {
  import opened Words
  import opened Outcomes
  import SscHeader

  /** Length of the `character_table` array. */
  const TABLE_SIZE: nat := 94

  /** The bytes lo, lo+1, ..., hi-1 in ascending order. */
  function Range(lo: nat, hi: nat): (r: seq<u8>)
    requires lo <= hi <= 0x100
    ensures |r| == hi - lo
    ensures forall i :: 0 <= i < |r| ==> r[i] as int == lo + i
  {
    seq(hi - lo, i requires 0 <= i < hi - lo => (lo + i) as u8)
  }

  /** a ... z */
  const LowercaseSet: seq<u8> := Range('a' as int, 'z' as int + 1)
  /** A ... Z */
  const UppercaseSet: seq<u8> := Range('A' as int, 'Z' as int + 1)
  /** 0 ... 9 */
  const DigitSet: seq<u8> := Range('0' as int, '9' as int + 1)
  /** The printable ASCII punctuation, ascending:
      ! " # $ % & ' ( ) * + , - . /   : ; < = > ? @   [ \ ] ^ _ `   { | } ~ */
  const SymbolSet: seq<u8> :=
    Range('!' as int, '/' as int + 1) + Range(':' as int, '@' as int + 1)
    + Range('[' as int, '`' as int + 1) + Range('{' as int, '~' as int + 1)

  /** Which character classes the configuration enables. */
  datatype Classes = Classes(lower: bool, upper: bool, digits: bool, symbols: bool)
  {
    predicate Any() { lower || upper || digits || symbols }
  }

  /** `character_table` together with `num_chars`. */
  datatype Table = Table(characters: seq<u8>, numChars: int)

  // ---------------------------------------------------------------------
  // Reference definitions, independent of the copying loop.

  predicate IsLower(b: u8) { 'a' as int <= b as int <= 'z' as int }
  predicate IsUpper(b: u8) { 'A' as int <= b as int <= 'Z' as int }
  predicate IsDigit(b: u8) { '0' as int <= b as int <= '9' as int }
  /** Printable, not blank, not a letter or digit. */
  predicate IsSymbol(b: u8) {
    '!' as int <= b as int <= '~' as int && !IsLower(b) && !IsUpper(b) && !IsDigit(b)
  }

  /** The byte belongs to one of the enabled classes. */
  predicate InAlphabet(c: Classes, b: u8) {
    || (c.lower && IsLower(b))
    || (c.upper && IsUpper(b))
    || (c.digits && IsDigit(b))
    || (c.symbols && IsSymbol(b))
  }

  /** 26a + 26b + 10c + 32d for the class flags a, b, c, d. */
  function Count(c: Classes): nat {
    (if c.lower then 26 else 0) + (if c.upper then 26 else 0)
    + (if c.digits then 10 else 0) + (if c.symbols then 32 else 0)
  }

  /** The enabled sets, concatenated in table order. */
  function Enabled(c: Classes): seq<u8> {
    (if c.lower then LowercaseSet else []) + (if c.upper then UppercaseSet else [])
    + (if c.digits then DigitSet else []) + (if c.symbols then SymbolSet else [])
  }

  // ---------------------------------------------------------------------
  // The builder as the source writes it: a cursor walking the table.

  /** The locals of `set_character_table` plus the context fields it writes. */
  datatype Builder = Builder(table: seq<u8>, cursor: nat, numChars: int, oneIsValid: bool)

  /** One `if (flag) { memcpy(character, set); character += size;
      num_chars += size; one_is_valid = true; }` step. */
  function AppendIf(b: Builder, flag: bool, chars: seq<u8>): (r: Builder)
    requires b.cursor + |chars| <= |b.table|
    ensures |r.table| == |b.table|
    ensures r.cursor == b.cursor + (if flag then |chars| else 0)
    ensures r.table[..r.cursor] == b.table[..b.cursor] + (if flag then chars else [])
    ensures forall j :: r.cursor <= j < |r.table| ==> r.table[j] == b.table[j]
    ensures r.numChars == b.numChars + (if flag then |chars| else 0)
    ensures r.oneIsValid == (b.oneIsValid || flag)
  {
    if flag then
      var t := b.table[..b.cursor] + chars + b.table[b.cursor + |chars|..];
      assert t[..b.cursor + |chars|] == b.table[..b.cursor] + chars;
      Builder(t, b.cursor + |chars|, b.numChars + |chars|, true)
    else b
  }

  lemma SetSizes()
    ensures |LowercaseSet| == SscHeader.NUM_LCASE && |UppercaseSet| == SscHeader.NUM_UCASE
    ensures |DigitSet| == SscHeader.NUM_DIGITS && |SymbolSet| == SscHeader.NUM_SYMBOLS
    ensures SscHeader.NUM_ALL_CHARS == TABLE_SIZE
  {
  }

  /** The four copy steps of `set_character_table`, from cursor 0. */
  function Build(c: Classes, t: Table): (b: Builder)
    requires |t.characters| == TABLE_SIZE
    ensures |b.table| == TABLE_SIZE
    ensures b.cursor == Count(c)
    ensures b.table[..b.cursor] == Enabled(c)
    ensures forall j :: b.cursor <= j < TABLE_SIZE ==> b.table[j] == t.characters[j]
    ensures b.numChars == t.numChars + Count(c)
    ensures b.oneIsValid == c.Any()
  {
    SetSizes();
    var l := if c.lower then LowercaseSet else [];
    var u := if c.upper then UppercaseSet else [];
    var d := if c.digits then DigitSet else [];
    var b0 := Builder(t.characters, 0, t.numChars, false);
    var b1 := AppendIf(b0, c.lower, LowercaseSet);
    assert b1.table[..b1.cursor] == l;
    var b2 := AppendIf(b1, c.upper, UppercaseSet);
    assert b2.table[..b2.cursor] == l + u;
    var b3 := AppendIf(b2, c.digits, DigitSet);
    assert b3.table[..b3.cursor] == l + u + d;
    AppendIf(b3, c.symbols, SymbolSet)
  }

  /** `set_character_table`. Since `num_chars` is accumulated with `+=`,
      the count it ends with is the count it started with plus the enabled
      set sizes; the table bytes past the copied sets are left as they were.
      With no class enabled the program stops with a diagnostic. */
  function SetCharacterTable(c: Classes, t: Table): (r: Status<Table>)
    requires |t.characters| == TABLE_SIZE
    ensures r.Continue? <==> c.Any()
    ensures !c.Any() ==> r == ExitFailure(NoCharacterSets)
    ensures r.Continue? ==>
      && |r.value.characters| == TABLE_SIZE
      && r.value.numChars == t.numChars + Count(c)
      && r.value.characters[..Count(c)] == Enabled(c)
      && r.value.characters[Count(c)..] == t.characters[Count(c)..]
  {
    var b := Build(c, t);
    assert b.table[Count(c)..] == t.characters[Count(c)..];
    if !b.oneIsValid then ExitFailure(NoCharacterSets)
    else Continue(Table(b.table, b.numChars))
  }

  // ---------------------------------------------------------------------
  // What the table holds.

  lemma InRange(lo: nat, hi: nat, b: u8)
    requires lo <= hi <= 0x100
    ensures b in Range(lo, hi) <==> lo <= b as int < hi
  {
    if lo <= b as int < hi {
      assert Range(lo, hi)[b as int - lo] == b;
    }
  }

  /** The bytes of an ASCII string. */
  function Ascii(s: string): (r: seq<u8>)
    requires forall i :: 0 <= i < |s| ==> s[i] as int < 0x80
    ensures |r| == |s| && forall i :: 0 <= i < |s| ==> r[i] as int == s[i] as int
  {
    seq(|s|, i requires 0 <= i < |s| => s[i] as int as u8)
  }

  /** The four sets, built as runs of byte values, are exactly the arrays
      the source spells out character by character, in the same order. */
  lemma SetsAsListed()
    ensures LowercaseSet == Ascii("abcdefghijklmnopqrstuvwxyz")
    ensures UppercaseSet == Ascii("ABCDEFGHIJKLMNOPQRSTUVWXYZ")
    ensures DigitSet == Ascii("0123456789")
    ensures SymbolSet == Ascii("!\"#$%&'()*+,-./:;<=>?@[\\]^_`{|}~")
  {
  }

  lemma InSymbolSet(b: u8)
    ensures b in SymbolSet <==> IsSymbol(b)
  {
    InRange('!' as int, '/' as int + 1, b);
    InRange(':' as int, '@' as int + 1, b);
    InRange('[' as int, '`' as int + 1, b);
    InRange('{' as int, '~' as int + 1, b);
  }

  /** The copied prefix holds exactly the bytes of the enabled classes: every
      byte of it is in one of them and every byte of every enabled class is
      in it. In particular none of them is the NUL terminator. */
  lemma {:induction false} TableMembership(c: Classes, b: u8)
    ensures b in Enabled(c) <==> InAlphabet(c, b)
    ensures b in Enabled(c) ==> b != NUL
  {
    InRange('a' as int, 'z' as int + 1, b);
    InRange('A' as int, 'Z' as int + 1, b);
    InRange('0' as int, '9' as int + 1, b);
    InSymbolSet(b);
  }

  /** The table size is 26a + 26b + 10c + 32d, at most 94, and at least 1
      exactly when some class is enabled. */
  lemma CountBounds(c: Classes)
    ensures |Enabled(c)| == Count(c) <= TABLE_SIZE
    ensures Count(c) >= 1 <==> c.Any()
  {
  }

  lemma RangeDistinct(lo: nat, hi: nat)
    requires lo <= hi <= 0x100
    ensures forall i, j :: 0 <= i < j < |Range(lo, hi)| ==> Range(lo, hi)[i] != Range(lo, hi)[j]
  {
  }

  predicate Distinct(s: seq<u8>) {
    forall i, j :: 0 <= i < j < |s| ==> s[i] != s[j]
  }

  /** Concatenating two duplicate-free sequences with no byte in common
      gives a duplicate-free sequence. */
  lemma {:induction false} DistinctAppend(a: seq<u8>, b: seq<u8>)
    requires Distinct(a) && Distinct(b)
    requires forall x :: x in a ==> x !in b
    ensures Distinct(a + b)
  {
    forall i, j | 0 <= i < j < |a + b|
      ensures (a + b)[i] != (a + b)[j]
    {
      if j < |a| {
      } else if i >= |a| {
        assert (a + b)[i] == b[i - |a|] && (a + b)[j] == b[j - |a|];
      } else {
        assert (a + b)[i] == a[i] && (a + b)[j] == b[j - |a|];
        assert a[i] in a;
      }
    }
  }

  /** No byte appears twice in the table, so each active offset names a
      different character. */
  lemma {:induction false} EnabledDistinct(c: Classes)
    ensures Distinct(Enabled(c))
  {
    RangeDistinct('a' as int, 'z' as int + 1);
    RangeDistinct('A' as int, 'Z' as int + 1);
    RangeDistinct('0' as int, '9' as int + 1);
    var s1 := Range('!' as int, '/' as int + 1);
    var s2 := Range(':' as int, '@' as int + 1);
    var s3 := Range('[' as int, '`' as int + 1);
    var s4 := Range('{' as int, '~' as int + 1);
    RangeDistinct('!' as int, '/' as int + 1);
    RangeDistinct(':' as int, '@' as int + 1);
    RangeDistinct('[' as int, '`' as int + 1);
    RangeDistinct('{' as int, '~' as int + 1);
    forall x | x in s1 ensures x !in s2 {
      InRange('!' as int, '/' as int + 1, x);
      InRange(':' as int, '@' as int + 1, x);
    }
    DistinctAppend(s1, s2);
    forall x | x in s1 + s2 ensures x !in s3 {
      InRange('!' as int, '/' as int + 1, x);
      InRange(':' as int, '@' as int + 1, x);
      InRange('[' as int, '`' as int + 1, x);
    }
    DistinctAppend(s1 + s2, s3);
    forall x | x in s1 + s2 + s3 ensures x !in s4 {
      InRange('!' as int, '/' as int + 1, x);
      InRange(':' as int, '@' as int + 1, x);
      InRange('[' as int, '`' as int + 1, x);
      InRange('{' as int, '~' as int + 1, x);
    }
    DistinctAppend(s1 + s2 + s3, s4);
    var l := if c.lower then LowercaseSet else [];
    var u := if c.upper then UppercaseSet else [];
    var d := if c.digits then DigitSet else [];
    var y := if c.symbols then SymbolSet else [];
    var cl := Classes(c.lower, false, false, false);
    var cu := Classes(false, c.upper, false, false);
    var cd := Classes(false, false, c.digits, false);
    var cy := Classes(false, false, false, c.symbols);
    forall x | x in l ensures x !in u {
      TableMembership(cl, x);
      TableMembership(cu, x);
    }
    DistinctAppend(l, u);
    forall x | x in l + u ensures x !in d {
      TableMembership(cl, x);
      TableMembership(cu, x);
      TableMembership(cd, x);
    }
    DistinctAppend(l + u, d);
    forall x | x in l + u + d ensures x !in y {
      TableMembership(cl, x);
      TableMembership(cu, x);
      TableMembership(cd, x);
      TableMembership(cy, x);
    }
    DistinctAppend(l + u + d, y);
  }
}
