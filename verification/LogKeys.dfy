/** Storage keys of the log (internal/cdraft/kvstore.go:86-119): a prefix and the index as
    8 big-endian bytes, so that byte order is index order. */
module LogKeys {
  import opened Orders

  function Pow256(width: nat): nat {
    if width == 0 then 1 else 256 * Pow256(width - 1)
  }

  function BigEndian(n: nat, width: nat): (s: string)
    ensures |s| == width
    decreases width
  {
    if width == 0 then "" else BigEndian(n / 256, width - 1) + [(n % 256) as char]
  }

  const META_KEY := "meta"
  const LOG_PREFIX := "log:"
  const STATE_PREFIX := "sm:"
  const RESULT_PREFIX := "res:"
  const INDEX_WIDTH: nat := 8
  const INDEX_LIMIT: nat := 0x1_0000_0000_0000_0000

  function LogKey(index: nat): string
    requires index < INDEX_LIMIT
  {
    LOG_PREFIX + BigEndian(index, INDEX_WIDTH)
  }

  /** Equal-length strings compare first by all but their last byte, then by the last byte. */
  lemma {:induction false} LessSnoc(p: string, q: string, x: char, y: char)
    requires |p| == |q|
    ensures Less(p + [x], q + [y]) <==> Less(p, q) || (p == q && x < y)
  {
    var a, b := p + [x], q + [y];
    if p == "" {
      assert a[1..] == "" && b[1..] == "";
    } else {
      LessSnoc(p[1..], q[1..], x, y);
      assert a[1..] == p[1..] + [x] && b[1..] == q[1..] + [y];
      assert p == [p[0]] + p[1..] && q == [q[0]] + q[1..];
    }
  }

  lemma {:induction false} BigEndianOrder(a: nat, b: nat, width: nat)
    requires a < Pow256(width) && b < Pow256(width)
    ensures Less(BigEndian(a, width), BigEndian(b, width)) <==> a < b
    ensures BigEndian(a, width) == BigEndian(b, width) <==> a == b
    decreases width
  {
    if width > 0 {
      var p, q := BigEndian(a / 256, width - 1), BigEndian(b / 256, width - 1);
      var x, y := (a % 256) as char, (b % 256) as char;
      assert a / 256 < Pow256(width - 1) && b / 256 < Pow256(width - 1);
      BigEndianOrder(a / 256, b / 256, width - 1);
      LessSnoc(p, q, x, y);
      assert x < y <==> a % 256 < b % 256;
      if p + [x] == q + [y] {
        assert (p + [x])[..width - 1] == p && (q + [y])[..width - 1] == q;
        assert (p + [x])[width - 1] == x && (q + [y])[width - 1] == y;
      }
    }
  }

  /** Keys sort as their indices, and different indices have different keys. */
  lemma LogKeyOrder(a: nat, b: nat)
    requires a < INDEX_LIMIT && b < INDEX_LIMIT
    ensures Less(LogKey(a), LogKey(b)) <==> a < b
    ensures LogKey(a) == LogKey(b) <==> a == b
  {
    assert Pow256(8) == INDEX_LIMIT by {
      assert Pow256(4) == 0x1_0000_0000;
    }
    BigEndianOrder(a, b, INDEX_WIDTH);
    var x, y := BigEndian(a, INDEX_WIDTH), BigEndian(b, INDEX_WIDTH);
    LessAfterPrefix(LOG_PREFIX, x, y);
    assert (LOG_PREFIX + x)[|LOG_PREFIX|..] == x && (LOG_PREFIX + y)[|LOG_PREFIX|..] == y;
  }

  /** The number that a string of bytes stands for, the most significant first. */
  function Value(s: string): nat {
    if s == "" then 0 else 256 * Value(s[..|s| - 1]) + s[|s| - 1] as nat
  }

  lemma {:induction false} BigEndianValue(n: nat, width: nat)
    requires n < Pow256(width)
    ensures Value(BigEndian(n, width)) == n
    ensures forall i :: 0 <= i < width ==> BigEndian(n, width)[i] as nat < 256
    decreases width
  {
    if width > 0 {
      BigEndianValue(n / 256, width - 1);
      var s := BigEndian(n, width);
      assert s[..|s| - 1] == BigEndian(n / 256, width - 1);
    }
  }

  /** A log key is "log:" followed by the 8 bytes that spell the index. */
  lemma LogKeySpells(index: nat)
    requires index < INDEX_LIMIT
    ensures var k := LogKey(index);
            && |k| == 12 && k[..4] == "log:" && Value(k[4..]) == index
            && forall i :: 4 <= i < 12 ==> k[i] as nat < 256
  {
    assert Pow256(8) == INDEX_LIMIT by {
      assert Pow256(4) == 0x1_0000_0000;
    }
    BigEndianValue(index, INDEX_WIDTH);
    var bytes := BigEndian(index, INDEX_WIDTH);
    assert LogKey(index)[4..] == bytes;
  }

  /** The four key spaces never meet, whatever follows their prefixes. */
  lemma KeySpacesDisjoint(index: nat, key: string, request: string)
    requires index < INDEX_LIMIT
    ensures var l, s, r := LogKey(index), STATE_PREFIX + key, RESULT_PREFIX + request;
            l != s && l != r && s != r && l != META_KEY && s != META_KEY && r != META_KEY
    ensures LOG_PREFIX == "log:" && STATE_PREFIX == "sm:" && RESULT_PREFIX == "res:" && META_KEY == "meta"
  {
    var l, s, r := LogKey(index), STATE_PREFIX + key, RESULT_PREFIX + request;
    assert l[0] == 'l' && s[0] == 's' && r[0] == 'r' && META_KEY[0] == 'm';
  }
}
