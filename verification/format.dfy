/** The output stage of `threegen` (and of the C++ constructor): the
    password bytes are written either as they are followed by one newline,
    or in blocks of five separated by two spaces, five blocks to a line.
    Here the bytes that would go to standard output are returned. */
module Format {
  import opened Words

  const CHARS_PER_BLOCK: nat := 5
  const BLOCKS_PER_LINE: nat := 5
  const SEPARATOR: seq<u8> := [SPACE, SPACE]
  const LINE_END: seq<u8> := [NEWLINE]

  /** What follows the full block with index i (from 0): a line end after
      every fifth block, two spaces after the others. */
  function BlockSep(i: nat): seq<u8> {
    if i % BLOCKS_PER_LINE == BLOCKS_PER_LINE - 1 then LINE_END else SEPARATOR
  }

  /** The first k full blocks of pw, each followed by its separator. */
  function Blocks(pw: seq<u8>, k: nat): seq<u8>
    requires CHARS_PER_BLOCK * k <= |pw|
  {
    if k == 0 then []
    else Blocks(pw, k - 1) + pw[CHARS_PER_BLOCK * (k - 1)..CHARS_PER_BLOCK * k] + BlockSep(k - 1)
  }

  /** The formatted output: all full blocks with their separators, then the
      leftover characters, then a newline exactly when the number of full
      blocks is not a multiple of five. So no newline follows 1 to 4
      leftover characters after a multiple of 25 (sizes 1-4, 26-29, ...),
      nor the empty password. Its length is the password's, plus two bytes
      per full block, less one per completed line of five blocks, plus that
      final newline. */
  function Formatted(pw: seq<u8>): (r: seq<u8>)
    ensures var k := |pw| / CHARS_PER_BLOCK;
      |r| == |pw| + 2 * k - k / BLOCKS_PER_LINE + (if k % BLOCKS_PER_LINE != 0 then 1 else 0)
  {
    var k := |pw| / CHARS_PER_BLOCK;
    BlocksLength(pw, k);
    Blocks(pw, k) + pw[CHARS_PER_BLOCK * k..] + (if k % BLOCKS_PER_LINE != 0 then LINE_END else [])
  }

  /** The whole output: formatted, or the bytes followed by one newline.
      Either way the output adds only spaces and newlines to the password:
      deleting them from both gives the same bytes. */
  function Emit(pw: seq<u8>, formatting: bool): (r: seq<u8>)
    ensures Strip(r) == Strip(pw)
    ensures !formatting ==> |r| == |pw| + 1 && r[|pw|] == NEWLINE
    ensures !formatting ==> r == pw + LINE_END
  {
    StripFormatted(pw);
    StripAppend(pw, LINE_END);
    StripSeparators();
    if formatting then Formatted(pw) else pw + LINE_END
  }

  /** The block-writing loop as the source has it: `chars_left` counts down
      by five, `blocks_left` counts the blocks still fitting on the line. */
  method WriteFormatted(pw: seq<u8>) returns (out: seq<u8>)
    ensures out == Formatted(pw)
  {
    out := [];
    var charsLeft := |pw|;
    var blocksLeft := BLOCKS_PER_LINE;
    var pos := 0;
    ghost var k := 0;  // full blocks written so far
    while charsLeft >= CHARS_PER_BLOCK
      invariant pos == CHARS_PER_BLOCK * k <= |pw|
      invariant charsLeft == |pw| - pos
      invariant blocksLeft == BLOCKS_PER_LINE - k % BLOCKS_PER_LINE
      invariant out == Blocks(pw, k)
    {
      out := out + pw[pos..pos + CHARS_PER_BLOCK];
      pos := pos + CHARS_PER_BLOCK;
      charsLeft := charsLeft - CHARS_PER_BLOCK;
      blocksLeft := blocksLeft - 1;
      if blocksLeft == 0 {
        blocksLeft := BLOCKS_PER_LINE;
        out := out + LINE_END;
      } else {
        out := out + SEPARATOR;
      }
      k := k + 1;
    }
    assert k == |pw| / CHARS_PER_BLOCK;
    if charsLeft > 0 {
      out := out + pw[pos..pos + charsLeft];
    } else {
      assert pw[pos..] == [];
    }
    if blocksLeft != BLOCKS_PER_LINE {
      out := out + LINE_END;
    }
  }

  // ---------------------------------------------------------------------
  // Deleting the separators gives the password back.

  /** The bytes that are neither a space nor a newline, in order. */
  function Strip(s: seq<u8>): seq<u8> {
    if s == [] then []
    else (if s[0] == SPACE || s[0] == NEWLINE then [] else [s[0]]) + Strip(s[1..])
  }

  lemma {:induction false} StripAppend(a: seq<u8>, b: seq<u8>)
    ensures Strip(a + b) == Strip(a) + Strip(b)
  {
    if a == [] {
      assert a + b == b;
    } else {
      assert (a + b)[1..] == a[1..] + b;
      StripAppend(a[1..], b);
    }
  }

  lemma StripSeparators()
    ensures Strip(SEPARATOR) == [] && Strip(LINE_END) == [] && Strip([]) == []
  {
    assert Strip([]) == [];
    var one: seq<u8> := [SPACE];
    assert one[1..] == [];
    assert Strip(one) == [];
    assert SEPARATOR[1..] == one;
    var nl: seq<u8> := [NEWLINE];
    assert nl[1..] == [];
    assert Strip(nl) == [];
  }

  predicate NoSeparatorBytes(pw: seq<u8>) {
    SPACE !in pw && NEWLINE !in pw
  }

  lemma {:induction false} StripKeeps(pw: seq<u8>)
    requires NoSeparatorBytes(pw)
    ensures Strip(pw) == pw
  {
    if pw != [] {
      assert NoSeparatorBytes(pw[1..]);
      StripKeeps(pw[1..]);
    }
  }

  lemma {:induction false} StripBlocks(pw: seq<u8>, k: nat)
    requires CHARS_PER_BLOCK * k <= |pw|
    ensures Strip(Blocks(pw, k)) == Strip(pw[..CHARS_PER_BLOCK * k])
  {
    if k > 0 {
      var lo, hi := CHARS_PER_BLOCK * (k - 1), CHARS_PER_BLOCK * k;
      var block := pw[lo..hi];
      var before := Blocks(pw, k - 1);
      assert Blocks(pw, k) == before + block + BlockSep(k - 1);
      StripBlocks(pw, k - 1);
      StripAppend(before + block, BlockSep(k - 1));
      StripAppend(before, block);
      StripSeparators();
      assert pw[..lo] + block == pw[..hi];
      StripAppend(pw[..lo], block);
    }
  }

  /** The formatted output adds only separators and newlines. */
  lemma {:induction false} StripFormatted(pw: seq<u8>)
    ensures Strip(Formatted(pw)) == Strip(pw)
  {
    var k := |pw| / CHARS_PER_BLOCK;
    var tail := pw[CHARS_PER_BLOCK * k..];
    var last := if k % BLOCKS_PER_LINE != 0 then LINE_END else [];
    StripSeparators();
    StripAppend(Blocks(pw, k) + tail, last);
    StripAppend(Blocks(pw, k), tail);
    StripBlocks(pw, k);
    assert pw[..CHARS_PER_BLOCK * k] + tail == pw;
    StripAppend(pw[..CHARS_PER_BLOCK * k], tail);
  }

  /** Round trip: when the password holds no space or newline (no table
      byte is one), deleting the separators and newlines from either kind
      of output gives the password back, in order. The precondition is
      needed, not assumed of the program: a password that does hold such a
      byte (the as-written C mapping can read the byte past the table,
      which may be 32 or 10) loses it too; `Emit`'s own contract,
      `Strip(r) == Strip(pw)`, covers every password. */
  lemma {:induction false} EmitRoundTrip(pw: seq<u8>, formatting: bool)
    requires NoSeparatorBytes(pw)
    ensures Strip(Emit(pw, formatting)) == pw
  {
    StripKeeps(pw);
  }

  // ---------------------------------------------------------------------
  // Shape of the formatted output.

  /** Every full block adds two bytes of separator, except every fifth,
      which adds one newline. */
  lemma {:induction false} BlocksLength(pw: seq<u8>, k: nat)
    requires CHARS_PER_BLOCK * k <= |pw|
    ensures |Blocks(pw, k)| == 7 * k - k / BLOCKS_PER_LINE
  {
    if k > 0 {
      BlocksLength(pw, k - 1);
    }
  }

  /** The trailing-newline rule: a non-empty formatted password ends in a
      newline unless its length leaves 1 to 4 characters after a multiple of
      25 (sizes 1-4, 26-29, ...), in which case it ends with the last
      password byte; the empty password prints nothing. */
  lemma {:induction false} FormattedEnding(pw: seq<u8>)
    requires NoSeparatorBytes(pw)
    ensures |pw| == 0 ==> Formatted(pw) == []
    ensures |pw| > 0 ==>
      (|Formatted(pw)| > 0 && (Formatted(pw)[|Formatted(pw)| - 1] == NEWLINE <==> !(1 <= |pw| % 25 <= 4)))
  {
    var k := |pw| / CHARS_PER_BLOCK;
    var blocks := Blocks(pw, k);
    var tail := pw[CHARS_PER_BLOCK * k..];
    var last: seq<u8> := if k % BLOCKS_PER_LINE != 0 then LINE_END else [];
    var out := Formatted(pw);
    assert out == blocks + tail + last;
    PartialLine(|pw|);
    if |pw| == 0 {
      assert blocks == [];
    } else if k % BLOCKS_PER_LINE != 0 {
      assert out[|out| - 1] == NEWLINE;
    } else if CHARS_PER_BLOCK * k < |pw| {
      assert out[|out| - 1] == tail[|tail| - 1] == pw[|pw| - 1];
      assert pw[|pw| - 1] in pw;
    } else {
      assert blocks == Blocks(pw, k - 1) + pw[CHARS_PER_BLOCK * (k - 1)..CHARS_PER_BLOCK * k] + BlockSep(k - 1);
      assert out == blocks;
      assert out[|out| - 1] == NEWLINE;
    }
  }

  /** A length leaves 1 to 4 characters after a multiple of 25 exactly when
      its full blocks complete a line and a partial block follows. */
  lemma PartialLine(len: nat)
    ensures var k := len / CHARS_PER_BLOCK;
      (1 <= len % 25 <= 4) <==> (k % BLOCKS_PER_LINE == 0 && CHARS_PER_BLOCK * k < len)
  {
    var k, r := len / CHARS_PER_BLOCK, len % CHARS_PER_BLOCK;
    var j, m := k / BLOCKS_PER_LINE, k % BLOCKS_PER_LINE;
    assert len == 5 * k + r && k == 5 * j + m;
    Mod25(len, j, 5 * m + r);
  }

  lemma Mod25(x: int, j: int, y: int)
    requires x == 25 * j + y && 0 <= y < 25
    ensures x % 25 == y
  {
  }
}
