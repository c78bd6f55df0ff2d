/**
 Names the pipeline builds from other values: the side-cache key and the name
 given to a thumbnail.
 */
module MediaNames {

  function Digit(d: nat): char
    requires d < 10
  {
    ['0', '1', '2', '3', '4', '5', '6', '7', '8', '9'][d]
  }

  /** Go's `%d` of an unsigned number. */
  function Decimal(n: nat): (s: string)
    ensures s != [] && ':' !in s
  {
    if n < 10 then [Digit(n)] else Decimal(n / 10) + [Digit(n % 10)]
  }

  lemma {:induction false} DecimalInjective(m: nat, n: nat)
    requires Decimal(m) == Decimal(n)
    ensures m == n
  {
    var s, t := Decimal(m), Decimal(n);
    assert s[|s| - 1] == Digit(m % 10) && t[|t| - 1] == Digit(n % 10);
    assert m % 10 == n % 10;
    if m >= 10 && n >= 10 {
      assert s[..|s| - 1] == Decimal(m / 10) && t[..|t| - 1] == Decimal(n / 10);
      DecimalInjective(m / 10, n / 10);
    }
  }

  /** The cache key `%d:%s` of an event and a storage id. */
  function Key(event: nat, id: string): string {
    Decimal(event) + ":" + id
  }

  /** Two keys are equal only for the same event and the same id, whatever characters the id has. */
  lemma KeyInjective(e1: nat, id1: string, e2: nat, id2: string)
    ensures Key(e1, id1) == Key(e2, id2) <==> e1 == e2 && id1 == id2
  {
    if Key(e1, id1) == Key(e2, id2) {
      var d1, d2, k := Decimal(e1), Decimal(e2), Key(e1, id1);
      assert k[|d1|] == ':' && k[|d2|] == ':';
      assert d1 == k[..|d1|] && d2 == k[..|d2|];
      DecimalInjective(e1, e2);
      assert id1 == k[|d1| + 1..] && id2 == k[|d2| + 1..];
    }
  }

  /** Go's `filepath.Ext`: the suffix from the last dot of the last path element. */
  function Ext(name: string): string {
    if name == [] || name[|name| - 1] == '/' then ""
    else if name[|name| - 1] == '.' then "."
    else
      var e := Ext(name[..|name| - 1]);
      if e == "" then "" else e + [name[|name| - 1]]
  }

  /** Go's `strings.TrimRight`: drops trailing characters that occur in `cutset`. */
  function TrimRight(s: string, cutset: string): string {
    if s != [] && s[|s| - 1] in cutset then TrimRight(s[..|s| - 1], cutset) else s
  }

  function ThumbName(name: string): string {
    "thumb_" + TrimRight(name, Ext(name)) + ".webp"
  }

  lemma {:induction false} ExtIsSuffix(name: string)
    ensures |Ext(name)| <= |name| && name[|name| - |Ext(name)|..] == Ext(name)
  {
    if name != [] && name[|name| - 1] != '/' && name[|name| - 1] != '.' {
      var n := |name| - 1;
      ExtIsSuffix(name[..n]);
      assert name[..n][n - |Ext(name[..n])|..] + [name[n]] == name[n - |Ext(name[..n])|..];
    }
  }

  lemma {:induction false} TrimRuns(s: string, t: string, cutset: string)
    requires forall i :: 0 <= i < |t| ==> t[i] in cutset
    ensures TrimRight(s + t, cutset) == TrimRight(s, cutset)
    decreases |t|
  {
    if t == [] {
      assert s + t == s;
    } else {
      assert (s + t)[..|s + t| - 1] == s + t[..|t| - 1];
      TrimRuns(s, t[..|t| - 1], cutset);
    }
  }

  lemma {:induction false} TrimShortens(s: string, cutset: string)
    ensures TrimRight(s, cutset) <= s
    ensures TrimRight(s, cutset) == s <==> s == [] || s[|s| - 1] !in cutset
  {
    if s != [] && s[|s| - 1] in cutset {
      TrimShortens(s[..|s| - 1], cutset);
    }
  }

  /** Trimming takes off just the extension exactly when the character before it does not occur in it. */
  lemma ThumbNameKeepsStem(name: string)
    ensures |Ext(name)| <= |name|
    ensures var stem := name[..|name| - |Ext(name)|];
      ThumbName(name) == "thumb_" + stem + ".webp" <==> stem == [] || stem[|stem| - 1] !in Ext(name)
  {
    ExtIsSuffix(name);
    var stem, ext := name[..|name| - |Ext(name)|], Ext(name);
    assert name == stem + ext;
    TrimRuns(stem, ext, ext);
    TrimShortens(stem, ext);
    var trimmed := TrimRight(stem, ext);
    if trimmed != stem {
      var a, b := "thumb_" + trimmed + ".webp", "thumb_" + stem + ".webp";
      assert |a| < |b|;
    }
  }

  /**
   The trim takes a set of characters, not a suffix, so distinct names can give
   the same thumbnail name: both "a.gif" and "agi.gif" become "thumb_a.webp".
   */
  lemma ThumbNamesCollide()
    ensures "a.gif" != "agi.gif" && ThumbName("a.gif") == ThumbName("agi.gif") == "thumb_a.webp"
  {
    var s, t := "a.gif", "agi.gif";
    assert s[..4] == "a.gi" && "a.gi"[..3] == "a.g" && "a.g"[..2] == "a." && "a."[..1] == "a";
    assert Ext("a.") == ".";
    assert Ext("a.g") == ".g";
    assert Ext("a.gi") == ".gi";
    assert Ext(s) == ".gif";
    assert t[..6] == "agi.gi" && "agi.gi"[..5] == "agi.g" && "agi.g"[..4] == "agi." && "agi."[..3] == "agi";
    assert "agi"[..2] == "ag" && "ag"[..1] == "a";
    assert Ext("agi.") == ".";
    assert Ext("agi.g") == ".g";
    assert Ext("agi.gi") == ".gi";
    assert Ext(t) == ".gif";
    var c := ".gif";
    assert TrimRight("a", c) == "a";
    assert TrimRight("ag", c) == "a";
    assert TrimRight("agi", c) == "a";
    assert TrimRight("agi.", c) == "a";
    assert TrimRight("agi.g", c) == "a";
    assert TrimRight("agi.gi", c) == "a";
    assert TrimRight(t, c) == "a";
    assert TrimRight("a.", c) == "a";
    assert TrimRight("a.g", c) == "a";
    assert TrimRight("a.gi", c) == "a";
    assert TrimRight(s, c) == "a";
  }
}
