/**
  Namespaces as text: labels in hexadecimal, joined by dots. The text decodes to the namespace, sorts
  as the tuple does, and a byte range selects exactly the descendants of a prefix.
 */
module NamespaceTexts {
  import opened StringOrder

  type Byte = b: int | 0 <= b < 256

  /** A label, or any other identity text, as its UTF-8 bytes. */
  type Label = seq<Byte>

  type Path = seq<Label>

  /** Labels are never empty. */
  predicate IsPath(path: Path) {
    forall i :: 0 <= i < |path| ==> path[i] != []
  }

  function HexDigit(n: int): (c: char)
    requires 0 <= n < 16
    ensures c > '/'
  {
    if n < 10 then ('0' as int + n) as char else ('a' as int + n - 10) as char
  }

  function HexValue(c: char): (n: int)
    ensures 0 <= n < 16
  {
    if '0' <= c <= '9' then c as int - '0' as int else if 'a' <= c <= 'f' then c as int - 'a' as int + 10 else 0
  }

  lemma HexDigits(n: int, m: int)
    requires 0 <= n < 16 && 0 <= m < 16
    ensures HexDigit(n) < HexDigit(m) <==> n < m
    ensures HexValue(HexDigit(n)) == n
  {
  }

  function HexByte(b: Byte): (text: string)
    ensures |text| == 2 && text[0] > '/' && text[1] > '/'
  {
    [HexDigit(b / 16), HexDigit(b % 16)]
  }

  function Hex(name: Label): string {
    if name == [] then "" else HexByte(name[0]) + Hex(name[1..])
  }

  /** `".".join(label.hex() for label in path)`. */
  function PathText(path: Path): string
    decreases path, 0
  {
    if path == [] then "" else Hex(path[0]) + Tail(path[1..])
  }

  function Tail(path: Path): string
    decreases path, 1
  {
    if path == [] then "" else "." + PathText(path)
  }

  // ---------------------------------------------------------------- decoding

  function Unhex(text: string): Label {
    if |text| < 2 then [] else [HexValue(text[0]) * 16 + HexValue(text[1])] + Unhex(text[2..])
  }

  function SplitDots(text: string): (r: seq<string>)
    ensures r != []
  {
    if text == "" then [""]
    else
      var rest := SplitDots(text[1..]);
      if text[0] == '.' then [""] + rest else [[text[0]] + rest[0]] + rest[1..]
  }

  function DecodePath(text: string): Path {
    if text == "" then []
    else
      var labels := SplitDots(text);
      seq(|labels|, i requires 0 <= i < |labels| => Unhex(labels[i]))
  }

  lemma {:induction false} UnhexHex(name: Label)
    ensures Unhex(Hex(name)) == name
  {
    if name != [] {
      var text, rest := Hex(name), Hex(name[1..]);
      assert text[2..] == rest;
      HexDigits(name[0] / 16, 0);
      HexDigits(name[0] % 16, 0);
      UnhexHex(name[1..]);
    }
  }

  lemma {:induction false} HexHasNoDots(name: Label)
    ensures forall i :: 0 <= i < |Hex(name)| ==> Hex(name)[i] > '/'
  {
    if name != [] {
      HexHasNoDots(name[1..]);
    }
  }

  lemma {:induction false} SplitAfterText(text: string, rest: string)
    requires (forall i :: 0 <= i < |text| ==> text[i] > '/') && (rest == "" || rest[0] == '.')
    ensures SplitDots(text + rest) == [text] + if rest == "" then [] else SplitDots(rest[1..])
  {
    if text == "" {
      assert text + rest == rest;
    } else {
      assert (text + rest)[1..] == text[1..] + rest;
      SplitAfterText(text[1..], rest);
      assert text == [text[0]] + text[1..];
    }
  }

  lemma {:induction false} SplitPathText(path: Path)
    requires path != []
    ensures SplitDots(PathText(path)) == seq(|path|, i requires 0 <= i < |path| => Hex(path[i]))
  {
    HexHasNoDots(path[0]);
    SplitAfterText(Hex(path[0]), Tail(path[1..]));
    if |path| > 1 {
      SplitPathText(path[1..]);
      assert Tail(path[1..])[1..] == PathText(path[1..]);
    }
  }

  lemma PathTextIsEmpty(path: Path)
    requires IsPath(path)
    ensures PathText(path) == "" <==> path == []
  {
    if path != [] {
      assert path[0] != [] && |Hex(path[0])| >= 2;
    }
  }

  /** Decoding a namespace's text gives the namespace back. */
  lemma PathRoundTrip(path: Path)
    requires IsPath(path)
    ensures DecodePath(PathText(path)) == path
  {
    PathTextIsEmpty(path);
    if path != [] {
      SplitPathText(path);
      forall i | 0 <= i < |path| ensures Unhex(Hex(path[i])) == path[i] {
        UnhexHex(path[i]);
      }
    }
  }

  lemma PathTextIsInjective(a: Path, b: Path)
    requires IsPath(a) && IsPath(b)
    ensures PathText(a) == PathText(b) <==> a == b
  {
    PathRoundTrip(a);
    PathRoundTrip(b);
  }

  lemma HexIsInjective(a: Label, b: Label)
    ensures Hex(a) == Hex(b) <==> a == b
  {
    UnhexHex(a);
    UnhexHex(b);
  }

  // ---------------------------------------------------------------- order

  /** Byte order on labels; a proper prefix comes first. */
  predicate LabelLess(a: Label, b: Label) {
    b != [] && (a == [] || a[0] < b[0] || (a[0] == b[0] && LabelLess(a[1..], b[1..])))
  }

  /** Tuple order: the first differing label decides, and a proper prefix comes first. */
  predicate PathAtMost(a: Path, b: Path) {
    a == [] || (b != [] && if a[0] == b[0] then PathAtMost(a[1..], b[1..]) else LabelLess(a[0], b[0]))
  }

  /** The end of a label's text. */
  predicate IsRest(text: string) {
    text == "" || text[0] == '.'
  }

  lemma {:induction false} CompareHex(a: Label, b: Label, s: string, t: string)
    requires IsRest(s) && IsRest(t)
    ensures AtMost(Hex(a) + s, Hex(b) + t) <==> if a == b then AtMost(s, t) else LabelLess(a, b)
  {
    if a == [] {
      assert Hex(a) + s == s;
      if b == [] {
        assert Hex(b) + t == t;
      }
    } else if b == [] {
      assert Hex(b) + t == t;
    } else {
      CompareHex(a[1..], b[1..], s, t);
      CompareHexByte(a[0], b[0], Hex(a[1..]) + s, Hex(b[1..]) + t);
      assert Hex(a) + s == HexByte(a[0]) + (Hex(a[1..]) + s);
      assert Hex(b) + t == HexByte(b[0]) + (Hex(b[1..]) + t);
      assert a == b <==> a[0] == b[0] && a[1..] == b[1..] by {
        assert a == [a[0]] + a[1..] && b == [b[0]] + b[1..];
      }
    }
  }

  lemma CompareHexByte(a: Byte, b: Byte, s: string, t: string)
    ensures AtMost(HexByte(a) + s, HexByte(b) + t) <==> a < b || (a == b && AtMost(s, t))
  {
    var x, y := HexByte(a) + s, HexByte(b) + t;
    HexDigits(a / 16, b / 16);
    HexDigits(b / 16, a / 16);
    HexDigits(a % 16, b % 16);
    HexDigits(b % 16, a % 16);
    assert x[1..][0] == HexDigit(a % 16) && y[1..][0] == HexDigit(b % 16);
    assert x[1..][1..] == s && y[1..][1..] == t;
  }

  /** The text sorts by bytes exactly as the namespace sorts as a tuple. */
  lemma {:induction false} TextOrderIsPathOrder(a: Path, b: Path)
    requires IsPath(a) && IsPath(b)
    ensures AtMost(PathText(a), PathText(b)) <==> PathAtMost(a, b)
  {
    PathTextIsEmpty(a);
    PathTextIsEmpty(b);
    if a != [] && b != [] {
      CompareHex(a[0], b[0], Tail(a[1..]), Tail(b[1..]));
      if a[0] == b[0] {
        TextOrderIsPathOrder(a[1..], b[1..]);
        var s, t := Tail(a[1..]), Tail(b[1..]);
        if a[1..] != [] && b[1..] != [] {
          assert s[1..] == PathText(a[1..]) && t[1..] == PathText(b[1..]);
        }
      }
    }
  }

  // ---------------------------------------------------------------- prefix ranges

  /** The range test of the prefix query: the text itself, or from the dot up to the slash after it. */
  predicate InPrefixRange(text: string, prefix: string) {
    || text == prefix
    || (AtMost(prefix + ".", text) && AtMost(text, prefix + "/") && text != prefix + "/")
  }

  /** Slash is the successor of dot, so the range is the strings that continue with a dot. */
  lemma {:induction false} RangeIsContinuation(text: string, prefix: string)
    ensures AtMost(prefix + ".", text) && AtMost(text, prefix + "/") && text != prefix + "/" <==> prefix + "." <= text
  {
    if prefix == "" {
      assert prefix + "." == "." && prefix + "/" == "/";
      assert "."[1..] == "" && "/"[1..] == "";
      if text != "" && text[0] == '/' && text[1..] == "" {
        assert text == "/";
      }
    } else {
      assert (prefix + ".")[1..] == prefix[1..] + "." && (prefix + "/")[1..] == prefix[1..] + "/";
      if text != "" && text[0] == prefix[0] {
        RangeIsContinuation(text[1..], prefix[1..]);
        assert text == [text[0]] + text[1..] && prefix == [prefix[0]] + prefix[1..];
        assert prefix + "." <= text <==> prefix[1..] + "." <= text[1..];
        assert text == prefix + "/" <==> text[1..] == prefix[1..] + "/";
      }
    }
  }

  lemma {:induction false} HexContinues(a: Label, b: Label, s: string, t: string)
    requires s != "" && s[0] == '.' && IsRest(t)
    ensures Hex(a) + s <= Hex(b) + t <==> a == b && s <= t
  {
    if a == [] || b == [] {
      assert a == [] ==> Hex(a) + s == s;
      assert b == [] ==> Hex(b) + t == t;
      HexHasNoDots(a);
      HexHasNoDots(b);
      if b != [] {
        assert (Hex(b) + t)[0] > '/';
      }
      if a != [] {
        assert (Hex(a) + s)[0] > '/';
      }
    } else {
      HexContinues(a[1..], b[1..], s, t);
      var x, y := Hex(a[1..]) + s, Hex(b[1..]) + t;
      assert Hex(a) + s == HexByte(a[0]) + x && Hex(b) + t == HexByte(b[0]) + y;
      HexByteContinues(a[0], b[0], x, y);
      assert a == b <==> a[0] == b[0] && a[1..] == b[1..] by {
        assert a == [a[0]] + a[1..] && b == [b[0]] + b[1..];
      }
    }
  }

  lemma HexByteContinues(a: Byte, b: Byte, x: string, y: string)
    ensures HexByte(a) + x <= HexByte(b) + y <==> a == b && x <= y
  {
    var p, q := HexByte(a) + x, HexByte(b) + y;
    HexDigits(a / 16, b / 16);
    HexDigits(b / 16, a / 16);
    HexDigits(a % 16, b % 16);
    HexDigits(b % 16, a % 16);
    assert p[2..] == x && q[2..] == y;
    if p <= q {
      assert p[0] == q[0] && p[1] == q[1];
      assert q[..|p|] == p;
      assert q[2..][..|x|] == x;
    }
  }

  lemma {:induction false} TextContinues(prefix: Path, path: Path)
    requires IsPath(prefix) && IsPath(path) && prefix != []
    ensures PathText(prefix) + "." <= PathText(path) <==> prefix < path
  {
    if path == [] {
      assert PathText(path) == "";
    } else {
      var s, t := Tail(prefix[1..]) + ".", Tail(path[1..]);
      assert PathText(prefix) + "." == Hex(prefix[0]) + s;
      HexContinues(prefix[0], path[0], s, t);
      assert prefix == [prefix[0]] + prefix[1..] && path == [path[0]] + path[1..];
      if prefix[1..] == [] {
        assert s == ".";
        assert s <= t <==> path[1..] != [];
        assert prefix < path <==> prefix[0] == path[0] && path[1..] != [];
      } else {
        TextContinues(prefix[1..], path[1..]);
        assert s == "." + (PathText(prefix[1..]) + ".");
        if path[1..] != [] {
          assert s[1..] == PathText(prefix[1..]) + "." && t[1..] == PathText(path[1..]);
          assert s <= t <==> s[1..] <= t[1..];
        }
        assert prefix < path <==> prefix[0] == path[0] && prefix[1..] < path[1..];
      }
    }
  }

  /** The range selects the namespace itself and its descendants, and nothing else. */
  lemma PrefixRangeIsTuplePrefix(prefix: Path, path: Path)
    requires IsPath(prefix) && IsPath(path) && prefix != []
    ensures InPrefixRange(PathText(path), PathText(prefix)) <==> prefix <= path
  {
    RangeIsContinuation(PathText(path), PathText(prefix));
    TextContinues(prefix, path);
    PathTextIsInjective(prefix, path);
  }
}
