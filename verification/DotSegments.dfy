/** Path resolution of the client's URI class, against sections 5.2.3 and 5.2.4 of RFC 3986. */
module DotSegments {

  // ---- RFC 3986 ----

  predicate StartsWith(s: string, p: string) { |p| <= |s| && s[..|p|] == p }

  /** The first `/` from `i` on, or the end. */
  function SlashAt(s: string, i: nat): (n: nat)
    requires i <= |s|
    ensures i <= n <= |s| && (n < |s| ==> s[n] == '/') && forall j :: i <= j < n ==> s[j] != '/'
    decreases |s| - i
  {
    if i == |s| || s[i] == '/' then i else SlashAt(s, i + 1)
  }

  /** The output buffer without its last segment and the `/` before it. */
  function DropLast(out: string): string {
    if out == "" then ""
    else if out[|out| - 1] == '/' then out[..|out| - 1]
    else DropLast(out[..|out| - 1])
  }

  /** Section 5.2.4, rule by rule. */
  function RemoveDotSegments(input: string, output: string): string
    decreases |input|
  {
    if input == "" then output
    else if StartsWith(input, "../") then RemoveDotSegments(input[3..], output)                       // A
    else if StartsWith(input, "./") then RemoveDotSegments(input[2..], output)
    else if StartsWith(input, "/./") then RemoveDotSegments(input[2..], output)                       // B
    else if input == "/." then RemoveDotSegments("/", output)
    else if StartsWith(input, "/../") then RemoveDotSegments(input[3..], DropLast(output))            // C
    else if input == "/.." then RemoveDotSegments("/", DropLast(output))
    else if input == "." || input == ".." then output                                                 // D
    else
      var n := SlashAt(input, 1);                                                                     // E
      RemoveDotSegments(input[n..], output + input[..n])
  }

  /** Section 5.2.3. */
  function Merge(authority: bool, base: string, reference: string): string {
    if authority && base == "" then "/" + reference
    else base[..AfterLastSlash(base)] + reference
  }

  /** Where the last segment begins. */
  function AfterLastSlash(s: string): (n: nat)
    ensures n <= |s| && (n > 0 ==> s[n - 1] == '/') && forall i :: n <= i < |s| ==> s[i] != '/'
  {
    if s == "" then 0 else if s[|s| - 1] == '/' then |s| else AfterLastSlash(s[..|s| - 1])
  }

  // ---- Segments ----

  function Split(s: string): (segs: seq<string>)
    ensures segs != []
    decreases |s|
  {
    var n := SlashAt(s, 0);
    if n == |s| then [s] else [s[..n]] + Split(s[n + 1..])
  }

  function Join(segs: seq<string>): string {
    if segs == [] then "" else if |segs| == 1 then segs[0] else segs[0] + "/" + Join(segs[1..])
  }

  predicate Plain(s: string) { '/' !in s }

  predicate Dots(s: string) { s == "." || s == ".." }

  lemma {:induction false} SplitJoins(s: string)
    ensures Join(Split(s)) == s && forall i :: 0 <= i < |Split(s)| ==> Plain(Split(s)[i])
    decreases |s|
  {
    var n := SlashAt(s, 0);
    if n < |s| {
      SplitJoins(s[n + 1..]);
      assert s == s[..n] + "/" + s[n + 1..];
      assert Split(s)[1..] == Split(s[n + 1..]);
    }
  }

  lemma {:induction false} SlashIs(s: string, i: nat, n: nat)
    requires i <= n <= |s| && (n < |s| ==> s[n] == '/') && forall j :: i <= j < n ==> s[j] != '/'
    ensures SlashAt(s, i) == n
    decreases n - i
  {
    if i < n { SlashIs(s, i + 1, n); }
  }

  lemma SplitFirst(x: string, t: string)
    requires Plain(x)
    ensures Split(x) == [x] && Split(x + "/" + t) == [x] + Split(t)
  {
    var s := x + "/" + t;
    assert forall j :: 0 <= j < |x| ==> s[j] == x[j] && x[j] in x;
    SlashIs(x, 0, |x|);
    SlashIs(s, 0, |x|);
    assert s[..|x|] == x && s[|x| + 1..] == t;
  }

  lemma {:induction false} JoinSplits(segs: seq<string>)
    requires segs != [] && forall i :: 0 <= i < |segs| ==> Plain(segs[i])
    ensures Split(Join(segs)) == segs
  {
    var x, rest := segs[0], segs[1..];
    SplitFirst(x, Join(rest));
    if rest != [] { JoinSplits(rest); }
    assert segs == [x] + rest;
  }

  // ---- The client ----

  /** One segment's effect on the stack; `root` says whether the path had a beginning, `last` whether it ends here. */
  function Apply(f: seq<string>, h: string, root: bool, last: bool): seq<string> {
    if h == "." then if root && last then f + [""] else f
    else if h == ".." then
      var g := if |f| > 1 || (|f| == 1 && f[0] != "") then f[..|f| - 1] else f;
      if root && last then g + [""] else g
    else f + [h]
  }

  function ApplyAll(e: seq<string>, f: seq<string>, root: bool): seq<string> {
    if e == [] then f
    else ApplyAll(e[1..], Apply(f, e[0], root, |e| == 1), root || !Dots(e[0]))
  }

  predicate Contains(s: string, p: string) {
    exists i :: 0 <= i <= |s| && StartsWith(s[i..], p)
  }

  function Normalized(e: string): string {
    if Dots(e) then ""
    else if Contains(e, "./") || Contains(e, "/.") then Join(ApplyAll(Split(e), [], StartsWith(e, "/")))
    else e
  }

  /** The loop of `resolve`: a stack of segments. */
  method Normalize(e: string) returns (d: string)
    ensures d == Normalized(e)
  {
    if e == ".." || e == "." { return ""; }
    if !Contains(e, "./") && !Contains(e, "/.") { return e; }
    var root := StartsWith(e, "/");
    var segs := Split(e);
    var f: seq<string> := [];
    var g := 0;
    assert segs[0..] == segs;
    while g < |segs|
      invariant 0 <= g <= |segs| && ApplyAll(segs[g..], f, root) == ApplyAll(segs, [], StartsWith(e, "/"))
    {
      var h := segs[g];
      assert segs[g..][1..] == segs[g + 1..];
      g := g + 1;
      if h == "." {
        if root && g == |segs| { f := f + [""]; }
      } else if h == ".." {
        if |f| > 1 || (|f| == 1 && f[0] != "") { f := f[..|f| - 1]; }
        if root && g == |segs| { f := f + [""]; }
      } else {
        f := f + [h];
        root := true;
      }
    }
    d := Join(f);
  }

  /** The path of a reference that has no authority of its own, resolved against a base. */
  method ResolvePath(authority: bool, base: string, reference: string) returns (d: string)
    ensures reference == "" ==> d == base
    ensures reference != "" ==>
      d == Normalized(if reference[0] == '/' then reference else Merge(authority, base, reference))
  {
    if reference == "" { return base; }
    var e := reference;
    if reference[0] != '/' {
      if authority && base == "" {
        e := "/" + reference;
      } else {
        e := base[..AfterLastSlash(base)] + reference;
      }
    }
    d := Normalize(e);
  }

  // ---- Where the two agree ----

  /** A stack of segments as the standard's output buffer, once a `/` stands before each. */
  function Out(st: seq<string>): string {
    if st == [] then "" else Out(st[..|st| - 1]) + "/" + st[|st| - 1]
  }

  /** The client's stack after a segment, and whether its first has gone while the standard kept the `/` after it. */
  function Move(f: seq<string>, slipped: bool, h: string): (seq<string>, bool) {
    if h == "." then (f, slipped)
    else if h == ".." then
      if f == [] then (f, slipped)
      else if f == [""] then (f, false)
      else (f[..|f| - 1], slipped || |f| == 1)
    else (f + [h], slipped)
  }

  function SlippedFrom(e: seq<string>, f: seq<string>, slipped: bool): bool {
    if e == [] then slipped
    else
      var (g, now) := Move(f, slipped, e[0]);
      SlippedFrom(e[1..], g, now)
  }

  /** Whether a `..` empties the stack and no later `..` meets a stack of one empty segment. */
  predicate Slipped(e: seq<string>) {
    SlippedFrom(e, [], false)
  }

  /** The standard's output buffer when the client's stack is `f`. */
  function Buffer(f: seq<string>, slipped: bool): string {
    if slipped then Out(f) else Join(f)
  }

  predicate AllPlain(e: seq<string>) {
    forall i :: 0 <= i < |e| ==> Plain(e[i])
  }

  lemma {:induction false} DropPlain(out: string, s: string)
    requires Plain(s)
    ensures DropLast(out + "/" + s) == out
    decreases |s|
  {
    var t := out + "/" + s;
    if s == "" {
      assert t[..|t| - 1] == out;
    } else {
      assert s[|s| - 1] in s && t[|t| - 1] == s[|s| - 1];
      assert t[..|t| - 1] == out + "/" + s[..|s| - 1];
      DropPlain(out, s[..|s| - 1]);
    }
  }

  lemma {:induction false} DropFirst(s: string)
    requires Plain(s)
    ensures DropLast(s) == ""
  {
    if s != "" {
      assert s[|s| - 1] in s;
      DropFirst(s[..|s| - 1]);
    }
  }

  lemma OutPushed(st: seq<string>, h: string)
    ensures Out(st + [h]) == Out(st) + "/" + h
  {
    assert (st + [h])[..|st|] == st;
  }

  lemma SlashAlone(out: string)
    ensures RemoveDotSegments("/", out) == out + "/"
  {
    SlashIs("/", 1, 1);
    assert "/"[1..] == "" && "/"[..1] == "/";
  }

  lemma OtherSegment(h: string, t: string, out: string)
    requires Plain(h) && !Dots(h) && (t != "" ==> t[0] == '/')
    ensures RemoveDotSegments("/" + h + t, out) == RemoveDotSegments(t, out + "/" + h)
  {
    var s := "/" + h + t;
    assert forall j :: 0 <= j < |h| ==> s[j + 1] == h[j] && h[j] in h;
    assert forall j :: 1 <= j < |h| + 1 ==> s[j] == h[j - 1];
    SlashIs(s, 1, |h| + 1);
    assert s[|h| + 1..] == t && s[..|h| + 1] == "/" + h;
    assert s[0] == '/' && "../"[0] == '.' && "./"[0] == '.';
    assert !StartsWith(s, "../") && !StartsWith(s, "./");
    NoDotRule(h, t);
    assert out + ("/" + h) == out + "/" + h;
  }

  lemma NoDotRule(h: string, t: string)
    requires Plain(h) && !Dots(h) && (t != "" ==> t[0] == '/')
    ensures var s := "/" + h + t;
      !StartsWith(s, "/./") && s != "/." && !StartsWith(s, "/../") && s != "/.." && s != "." && s != ".."
  {
    var s := "/" + h + t;
    assert forall j :: 0 <= j < |h| ==> s[j + 1] == h[j] && h[j] in h;
    assert |h| == 1 ==> h == [h[0]];
    assert |h| == 2 ==> h == [h[0], h[1]];
    assert s[0] == '/' && (t != "" ==> s[|h| + 1] == '/') && |s| == 1 + |h| + |t|;
    forall p | StartsWith(s, p) ensures forall j :: 0 <= j < |p| ==> s[j] == p[j] {}
    var b, c := "/./", "/../";
    assert b[1] == '.' && b[2] == '/' && c[1] == '.' && c[2] == '.' && c[3] == '/';
  }

  lemma OneDot(t: string, out: string)
    requires t != "" ==> t[0] == '/'
    ensures RemoveDotSegments("/." + t, out) == RemoveDotSegments(if t == "" then "/" else t, out)
  {
    var s := "/." + t;
    if t == "" { assert s == "/."; } else { assert s[..3] == "/./" && s[2..] == t; }
  }

  lemma TwoDots(t: string, out: string)
    requires t != "" ==> t[0] == '/'
    ensures RemoveDotSegments("/.." + t, out) == RemoveDotSegments(if t == "" then "/" else t, DropLast(out))
  {
    var s := "/.." + t;
    assert s[2] == '.';
    if t == "" { assert s == "/.."; } else { assert s[..4] == "/../" && s[3..] == t; }
  }

  lemma DotSegment(h: string, t: string, out: string)
    requires Dots(h) && (t != "" ==> t[0] == '/')
    ensures RemoveDotSegments("/" + h + t, out)
      == RemoveDotSegments(if t == "" then "/" else t, if h == "." then out else DropLast(out))
  {
    if h == "." {
      assert "/" + h + t == "/." + t;
      OneDot(t, out);
    } else {
      assert "/" + h + t == "/.." + t;
      TwoDots(t, out);
    }
  }

  lemma {:induction false} JoinPushed(segs: seq<string>, x: string)
    requires segs != []
    ensures Join(segs + [x]) == Join(segs) + "/" + x
  {
    assert (segs + [x])[1..] == segs[1..] + [x];
    if |segs| > 1 { JoinPushed(segs[1..], x); }
  }

  lemma {:induction false} JoinIsOut(st: seq<string>)
    ensures Join([""] + st) == Out(st)
    ensures st != [] ==> Out(st) == "/" + Join(st)
  {
    if st != [] {
      var n := |st| - 1;
      JoinIsOut(st[..n]);
      JoinPushed([""] + st[..n], st[n]);
      assert [""] + st == [""] + st[..n] + [st[n]];
      assert ([""] + st)[1..] == st;
    }
  }

  lemma BufferPushed(f: seq<string>, slipped: bool, h: string)
    requires slipped || f != []
    ensures Buffer(f + [h], slipped) == Buffer(f, slipped) + "/" + h
  {
    if slipped { OutPushed(f, h); } else { JoinPushed(f, h); }
  }

  lemma BufferPopped(f: seq<string>, slipped: bool)
    requires AllPlain(f) && (slipped || f != [])
    ensures var (g, now) := Move(f, slipped, ".."); DropLast(Buffer(f, slipped)) == Buffer(g, now)
  {
    if |f| == 1 && !slipped {
      DropFirst(f[0]);
    } else if f != [] {
      var n := |f| - 1;
      assert f == f[..n] + [f[n]];
      if slipped || n > 0 { BufferPushed(f[..n], slipped, f[n]); }
      DropPlain(Buffer(f[..n], slipped), f[n]);
    }
  }

  /** One segment of the standard's loop, once the input begins with `/`. */
  lemma MoveRemoves(h: string, t: string, f: seq<string>, slipped: bool)
    requires Plain(h) && AllPlain(f) && (t != "" ==> t[0] == '/') && (slipped || f != [])
    ensures var (g, now) := Move(f, slipped, h);
      && AllPlain(g) && (now || g != [])
      && RemoveDotSegments("/" + h + t, Buffer(f, slipped))
         == RemoveDotSegments(if Dots(h) && t == "" then "/" else t, Buffer(g, now))
  {
    if Dots(h) {
      BufferPopped(f, slipped);
      DotSegment(h, t, Buffer(f, slipped));
    } else {
      BufferPushed(f, slipped, h);
      OtherSegment(h, t, Buffer(f, slipped));
    }
  }

  lemma ApplyIs(f: seq<string>, slipped: bool, h: string, last: bool)
    ensures var (g, now) := Move(f, slipped, h); Apply(f, h, true, last) == if last && Dots(h) then g + [""] else g
  {
  }

  lemma LastRemoved(h: string, f: seq<string>, slipped: bool)
    requires Plain(h) && AllPlain(f) && (slipped || f != [])
    ensures var g, now := Apply(f, h, true, true), Move(f, slipped, h).1;
      g != [] && RemoveDotSegments("/" + h, Buffer(f, slipped)) == Buffer(g, now)
  {
    var (g, now) := Move(f, slipped, h);
    MoveRemoves(h, "", f, slipped);
    ApplyIs(f, slipped, h, true);
    assert "/" + h + "" == "/" + h;
    if Dots(h) {
      SlashAlone(Buffer(g, now));
      BufferPushed(g, now, "");
      assert Buffer(g, now) + "/" + "" == Buffer(g, now) + "/";
    }
  }

  /** The standard's loop and the client's, segment by segment, once the input begins with `/`. */
  lemma {:induction false} SegmentsRemoved(e: seq<string>, f: seq<string>, slipped: bool)
    requires e != [] && AllPlain(e) && AllPlain(f) && (slipped || f != [])
    ensures var g := ApplyAll(e, f, true);
      g != [] && RemoveDotSegments("/" + Join(e), Buffer(f, slipped)) == Buffer(g, SlippedFrom(e, f, slipped))
    decreases |e|
  {
    var h, rest := e[0], e[1..];
    var (g, now) := Move(f, slipped, h);
    if rest == [] {
      LastRemoved(h, f, slipped);
      assert ApplyAll(e, f, true) == Apply(f, h, true, true);
    } else {
      var t := "/" + Join(rest);
      assert "/" + Join(e) == "/" + h + t;
      MoveRemoves(h, t, f, slipped);
      ApplyIs(f, slipped, h, false);
      SegmentsRemoved(rest, g, now);
    }
  }

  /** The first segment goes to the output by the last rule, unless it is made of dots. */
  lemma FirstSegment(h: string, t: string)
    requires Plain(h) && !Dots(h) && (h == "" || t == "" || t[0] == '/')
    ensures RemoveDotSegments(h + t, "") == RemoveDotSegments(t, h)
  {
    var s := h + t;
    if h == "" {
      assert s == t;
    } else {
      assert forall j :: 0 <= j < |h| ==> s[j] == h[j] && h[j] in h;
      SlashIs(s, 1, |h|);
      assert s[|h|..] == t && s[..|h|] == h && "" + h == h;
      FirstRules(h, t);
    }
  }

  lemma FirstRules(h: string, t: string)
    requires Plain(h) && !Dots(h) && h != "" && (t == "" || t[0] == '/')
    ensures var s := h + t;
      && !StartsWith(s, "../") && !StartsWith(s, "./") && !StartsWith(s, "/./") && s != "/."
      && !StartsWith(s, "/../") && s != "/.." && s != "." && s != ".."
  {
    var s := h + t;
    assert s[0] == h[0] && h[0] in h;
    assert forall j :: 0 <= j < |h| ==> s[j] == h[j] && h[j] in h;
    assert t != "" ==> s[|h|] == t[0];
    assert t == "" ==> s == h;
    assert |h| == 1 ==> h == [h[0]] && h[0] != '.';
    assert |h| == 2 ==> h == [h[0], h[1]] && !(h[0] == '.' && h[1] == '.');
    FirstChars(s);
  }

  lemma FirstChars(s: string)
    ensures StartsWith(s, "../") ==> s[0] == '.' && s[1] == '.' && s[2] == '/'
    ensures StartsWith(s, "./") ==> s[0] == '.' && s[1] == '/'
    ensures StartsWith(s, "/./") || StartsWith(s, "/../") ==> s[0] == '/'
  {
    if StartsWith(s, "../") { assert s[..3] == "../"; }
    if StartsWith(s, "./") { assert s[..2] == "./"; }
    if StartsWith(s, "/./") { assert s[..3] == "/./"; }
    if StartsWith(s, "/../") { assert s[..4] == "/../"; }
  }

  lemma DotsFirst(h: string, r: string)
    requires Dots(h)
    ensures RemoveDotSegments(h + "/" + r, "") == RemoveDotSegments(r, "")
  {
    var s := h + "/" + r;
    if h == "." {
      assert s[..2] == "./" && s[2..] == r && s[1] == '/';
      FirstChars(s);
    } else {
      assert s[..3] == "../" && s[3..] == r;
    }
  }

  lemma OneRemoved(h: string)
    requires Plain(h)
    ensures !Slipped([h]) && RemoveDotSegments(Join([h]), "") == Join(ApplyAll([h], [], false))
  {
    assert [h][1..] == [] && Join([h]) == h;
    var (g, now) := Move([], false, h);
    assert !now && !SlippedFrom([], g, now);
    assert ApplyAll([h], [], false) == ApplyAll([], Apply([], h, false, true), !Dots(h)) == Apply([], h, false, true);
    if Dots(h) {
      assert Apply([], h, false, true) == [];
    } else {
      FirstSegment(h, "");
      assert h + "" == h && [] + [h] == [h];
    }
  }

  /** The two loops from the beginning of any path. */
  lemma {:induction false} PathRemoved(e: seq<string>)
    requires e != [] && AllPlain(e)
    ensures var g := ApplyAll(e, [], false);
      && RemoveDotSegments(Join(e), "") == Buffer(g, Slipped(e))
      && (Slipped(e) ==> g != [])
    decreases |e|
  {
    var h, rest := e[0], e[1..];
    if rest == [] {
      OneRemoved(h);
      assert e == [h];
    } else if Dots(h) {
      DotsFirst(h, Join(rest));
      PathRemoved(rest);
    } else {
      var t := "/" + Join(rest);
      assert Join(e) == h + t && [] + [h] == [h];
      FirstSegment(h, t);
      SegmentsRemoved(rest, [h], false);
    }
  }

  lemma {:induction false} NothingApplied(e: seq<string>, f: seq<string>, root: bool)
    requires forall i :: 0 <= i < |e| ==> !Dots(e[i])
    ensures ApplyAll(e, f, root) == f + e
  {
    if e != [] {
      NothingApplied(e[1..], f + [e[0]], true);
      assert f + [e[0]] + e[1..] == f + e;
    }
  }

  lemma {:induction false} NoDotsPushed(e: seq<string>, f: seq<string>, root: bool)
    requires forall i :: 0 <= i < |e| ==> Plain(e[i])
    requires forall i :: 0 <= i < |f| ==> Plain(f[i]) && !Dots(f[i])
    ensures forall x :: x in ApplyAll(e, f, root) ==> Plain(x) && !Dots(x)
  {
    if e != [] { NoDotsPushed(e[1..], Apply(f, e[0], root, |e| == 1), root || !Dots(e[0])); }
  }

  lemma ContainsPart(s: string, n: nat, p: string)
    requires n <= |s|
    ensures Contains(s[n..], p) ==> Contains(s, p)
  {
    if Contains(s[n..], p) {
      var i :| 0 <= i <= |s[n..]| && StartsWith(s[n..][i..], p);
      assert s[n..][i..] == s[n + i..];
    }
  }

  lemma FirstIsNoDot(s: string)
    requires s != "" && !StartsWith("/" + s, "/.")
    ensures s[0] != '.'
  {
    assert ("/" + s)[..2] == ['/', s[0]];
  }

  lemma DotsThenSlash(e: string, n: nat)
    requires n < |e| && e[n] == '/'
    ensures Dots(e[..n]) ==> Contains(e, "./")
  {
    if Dots(e[..n]) {
      assert e[..n][n - 1] == '.';
      assert e[n - 1..][..2] == "./" && StartsWith(e[n - 1..], "./");
    }
  }

  lemma DotsAreOneSegment(r: string)
    ensures Dots(r) ==> Split(r) == [r]
  {
    if Dots(r) { SlashIs(r, 0, |r|); }
  }

  /** Without `/.` in it, what follows a `/` has no dot segments. */
  lemma {:induction false} NoDotsAfterSlash(s: string)
    requires !Contains("/" + s, "/.")
    ensures forall i :: 0 <= i < |Split(s)| ==> !Dots(Split(s)[i])
    decreases |s|
  {
    var n, t := SlashAt(s, 0), "/" + s;
    assert t[0..] == t && !StartsWith(t, "/.");
    if n > 0 { FirstIsNoDot(s); }
    if n < |s| {
      assert t[n + 1..] == "/" + s[n + 1..];
      ContainsPart(t, n + 1, "/.");
      NoDotsAfterSlash(s[n + 1..]);
      assert Split(s) == [s[..n]] + Split(s[n + 1..]);
      assert forall i :: 0 < i < |Split(s)| ==> Split(s)[i] == Split(s[n + 1..])[i - 1];
    }
  }

  lemma NoDotsAtAll(e: string)
    requires !Dots(e) && !Contains(e, "./") && !Contains(e, "/.")
    ensures forall i :: 0 <= i < |Split(e)| ==> !Dots(Split(e)[i])
  {
    var n := SlashAt(e, 0);
    if n < |e| {
      assert e[n..] == "/" + e[n + 1..];
      ContainsPart(e, n, "/.");
      NoDotsAfterSlash(e[n + 1..]);
      DotsThenSlash(e, n);
      assert forall i :: 0 < i < |Split(e)| ==> Split(e)[i] == Split(e[n + 1..])[i - 1];
    }
  }

  /** The client's short cuts for paths without dots change nothing. */
  lemma NormalizedIs(e: string)
    ensures Normalized(e) == Join(ApplyAll(Split(e), [], false))
  {
    SplitJoins(e);
    DotsAreOneSegment(e);
    if Dots(e) {
      assert ApplyAll([e], [], false) == Apply([], e, false, true);
    } else if Contains(e, "./") || Contains(e, "/.") {
      RootNoticed(e);
    } else {
      NoDotsAtAll(e);
      NothingApplied(Split(e), [], false);
      assert [] + Split(e) == Split(e);
    }
  }

  /** That a path begins with `/` is noticed at its empty first segment anyway. */
  lemma RootNoticed(e: string)
    ensures ApplyAll(Split(e), [], StartsWith(e, "/")) == ApplyAll(Split(e), [], false)
  {
    if StartsWith(e, "/") {
      SplitRooted(e);
      assert Split(e)[1..] == Split(e[1..]) && Split(e)[0] == "";
    }
  }

  lemma SplitRooted(e: string)
    requires StartsWith(e, "/")
    ensures Split(e) == [""] + Split(e[1..]) && e == "/" + e[1..]
  {
    SlashIs(e, 0, 0);
  }

  /**
   For every path, the client gives what the standard's rewriting gives exactly
   when the path does not slip; when it does, the standard has one `/` more in front.
   */
  lemma ResolvesUnlessSlipped(e: string)
    ensures Normalized(e) == RemoveDotSegments(e, "") <==> !Slipped(Split(e))
    ensures Slipped(Split(e)) ==> RemoveDotSegments(e, "") == "/" + Normalized(e)
  {
    NormalizedIs(e);
    SplitJoins(e);
    PathRemoved(Split(e));
    JoinIsOut(ApplyAll(Split(e), [], false));
  }

  lemma {:induction false} RootStays(e: seq<string>, f: seq<string>)
    requires f != [] && f[0] == ""
    ensures !SlippedFrom(e, f, false)
    decreases |e|
  {
    if e != [] {
      var (g, now) := Move(f, false, e[0]);
      assert !now && g != [] && g[0] == "" by {
        if |f| == 1 { assert f == [""]; }
      }
      RootStays(e[1..], g);
    }
  }

  /** For every path that begins with `/`, the stack gives what the standard's rewriting gives. */
  lemma ResolvesAsStandard(e: string)
    requires StartsWith(e, "/")
    ensures Normalized(e) == RemoveDotSegments(e, "")
  {
    SplitRooted(e);
    assert Split(e)[0] == "" && [] + [""] == [""];
    RootStays(Split(e)[1..], [""]);
    ResolvesUnlessSlipped(e);
  }

  /** No path, relative or not, keeps a dot segment. */
  lemma NoDotSegmentsLeft(e: string)
    ensures forall i :: 0 <= i < |Split(Normalized(e))| ==> !Dots(Split(Normalized(e))[i])
  {
    if Dots(e) {
    } else if Contains(e, "./") || Contains(e, "/.") {
      SplitJoins(e);
      var f := ApplyAll(Split(e), [], StartsWith(e, "/"));
      NoDotsPushed(Split(e), [], StartsWith(e, "/"));
      if f != [] { JoinSplits(f); }
    } else {
      NoDotsAtAll(e);
    }
  }

  /** Resolving twice changes nothing more. */
  lemma Idempotent(e: string)
    ensures Normalized(Normalized(e)) == Normalized(e)
  {
    var r := Normalized(e);
    NoDotSegmentsLeft(e);
    SplitJoins(r);
    NothingApplied(Split(r), [], StartsWith(r, "/"));
    assert [] + Split(r) == Split(r);
    DotsAreOneSegment(r);
  }

  /** A relative path that slips: the standard keeps the `/` after a first segment that it drops. */
  lemma RelativeMayDiffer()
    ensures Slipped(Split("a/../b")) && Normalized("a/../b") == "b" && RemoveDotSegments("a/../b", "") == "/b"
  {
    ExampleSplits();
    ExampleSlips();
    NormalizedIs("a/../b");
    ResolvesUnlessSlipped("a/../b");
    assert Join(["b"]) == "b";
  }

  lemma ExampleSlips()
    ensures Slipped(["a", "..", "b"]) && ApplyAll(["a", "..", "b"], [], false) == ["b"]
  {
    assert ["a", "..", "b"][1..] == ["..", "b"] && ["..", "b"][1..] == ["b"] && ["b"][1..] == [];
    assert ["a"][..0] == [] && [] + ["a"] == ["a"] && [] + ["b"] == ["b"];
    assert SlippedFrom(["b"], [], true) by { assert Move([], true, "b") == (["b"], true); }
    assert SlippedFrom(["..", "b"], ["a"], false) by { assert Move(["a"], false, "..") == ([], true); }
    assert Move([], false, "a") == (["a"], false);
    assert ApplyAll(["b"], [], true) == ["b"] by { assert Apply([], "b", true, true) == ["b"]; }
    assert ApplyAll(["..", "b"], ["a"], true) == ["b"] by { assert Apply(["a"], "..", true, false) == []; }
    assert Apply([], "a", false, false) == ["a"];
  }

  lemma ExampleSplits()
    ensures Split("a/../b") == ["a", "..", "b"]
  {
    var segs := ["a", "..", "b"];
    assert Join(segs[1..][1..]) == "b" && Join(segs[1..]) == ".." + "/" + "b" && Join(segs) == "a" + "/" + "../b";
    JoinSplits(segs);
    assert "a/../b" == Join(segs);
  }
}
