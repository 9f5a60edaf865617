/** strings.TrimSpace. */
module Text {

  /** unicode.IsSpace: the Unicode White_Space property. */
  predicate IsSpace(c: char) {
    var n := c as int;
    || 0x09 <= n <= 0x0d || n == 0x20 || n == 0x85 || n == 0xa0 || n == 0x1680
    || 0x2000 <= n <= 0x200a || n == 0x2028 || n == 0x2029 || n == 0x202f || n == 0x205f || n == 0x3000
  }

  function TrimLeft(s: string): string {
    if s != [] && IsSpace(s[0]) then TrimLeft(s[1..]) else s
  }

  function TrimRight(s: string): string {
    if s != [] && IsSpace(s[|s| - 1]) then TrimRight(s[..|s| - 1]) else s
  }

  function TrimSpace(s: string): string {
    TrimRight(TrimLeft(s))
  }

  /** No white space at either end. */
  predicate Trimmed(s: string) {
    s == [] || (!IsSpace(s[0]) && !IsSpace(s[|s| - 1]))
  }

  lemma {:induction false} TrimLeftEnds(s: string)
    ensures TrimLeft(s) == [] || !IsSpace(TrimLeft(s)[0])
  {
    if s != [] && IsSpace(s[0]) { TrimLeftEnds(s[1..]); }
  }

  lemma {:induction false} TrimRightEnds(s: string)
    ensures TrimRight(s) == [] || !IsSpace(TrimRight(s)[|TrimRight(s)| - 1])
    ensures TrimRight(s) <= s
  {
    if s != [] && IsSpace(s[|s| - 1]) { TrimRightEnds(s[..|s| - 1]); }
  }

  /** Trimming leaves no white space at the ends, and only trimmed text is left alone. */
  lemma TrimSpaceEnds(s: string)
    ensures Trimmed(TrimSpace(s))
    ensures TrimSpace(s) == s <==> Trimmed(s)
  {
    TrimLeftEnds(s);
    TrimRightEnds(TrimLeft(s));
  }

  predicate AllSpace(s: string) {
    forall i | 0 <= i < |s| :: IsSpace(s[i])
  }

  lemma {:induction false} TrimLeftCuts(s: string) returns (l: string)
    ensures s == l + TrimLeft(s) && AllSpace(l)
  {
    if s != [] && IsSpace(s[0]) {
      l := TrimLeftCuts(s[1..]);
      l := [s[0]] + l;
    } else {
      l := [];
    }
  }

  lemma {:induction false} TrimRightCuts(s: string) returns (r: string)
    ensures s == TrimRight(s) + r && AllSpace(r)
  {
    if s != [] && IsSpace(s[|s| - 1]) {
      r := TrimRightCuts(s[..|s| - 1]);
      r := r + [s[|s| - 1]];
    } else {
      r := [];
    }
  }

  /** Trimming removes white space only, and only at the ends. */
  lemma TrimSpaceCuts(s: string) returns (l: string, r: string)
    ensures s == l + TrimSpace(s) + r && AllSpace(l) && AllSpace(r)
  {
    l := TrimLeftCuts(s);
    r := TrimRightCuts(TrimLeft(s));
  }

  // ---- trimming, said without trimming ----

  /** core is what is left of text when white space is cut from both ends. */
  ghost predicate TrimmedTo(text: string, core: string) {
    Trimmed(core) && exists l, r :: text == l + core + r && AllSpace(l) && AllSpace(r)
  }

  lemma {:induction false} TrimLeftSkips(l: string, x: string)
    requires AllSpace(l)
    ensures TrimLeft(l + x) == TrimLeft(x)
  {
    if l == [] {
      assert l + x == x;
    } else {
      assert (l + x)[1..] == l[1..] + x;
      TrimLeftSkips(l[1..], x);
    }
  }

  lemma {:induction false} TrimRightSkips(x: string, r: string)
    requires AllSpace(r)
    ensures TrimRight(x + r) == TrimRight(x)
  {
    if r == [] {
      assert x + r == x;
    } else {
      assert (x + r)[..|x + r| - 1] == x + r[..|r| - 1];
      TrimRightSkips(x, r[..|r| - 1]);
    }
  }

  /** There is exactly one way to trim a text, and TrimSpace finds it. */
  lemma TrimSpaceUnique(text: string, core: string)
    ensures TrimmedTo(text, core) <==> core == TrimSpace(text)
  {
    if TrimmedTo(text, core) {
      var l, r :| text == l + core + r && AllSpace(l) && AllSpace(r);
      CoreIsTrim(l, core, r);
    }
    var l, r := TrimSpaceCuts(text);
    TrimSpaceEnds(text);
    assert text == l + TrimSpace(text) + r;
  }

  lemma CoreIsTrim(l: string, core: string, r: string)
    requires Trimmed(core) && AllSpace(l) && AllSpace(r)
    ensures TrimSpace(l + core + r) == core
  {
    assert l + core + r == l + (core + r);
    TrimLeftSkips(l, core + r);
    if core == [] {
      assert core + r == r && r + [] == r;
      TrimLeftSkips(r, []);
    } else {
      assert (core + r)[0] == core[0];
      TrimRightSkips(core, r);
    }
  }

  /** Trimming leaves nothing exactly of white space. */
  lemma BlankTrims(text: string)
    ensures TrimSpace(text) == "" <==> AllSpace(text)
  {
    if AllSpace(text) {
      CoreIsTrim(text, "", "");
      assert text + "" + "" == text;
    }
    var l, r := TrimSpaceCuts(text);
    if TrimSpace(text) == "" { assert text == l + r; }
  }

  /** The characters that count as white space, one by one. */
  lemma SpaceCharacters(c: char)
    ensures IsSpace(c) <==> c as int in {
              9, 10, 11, 12, 13, 32, 133, 160, 5760, 8192, 8193, 8194, 8195, 8196, 8197, 8198, 8199, 8200, 8201, 8202,
              8232, 8233, 8239, 8287, 12288}
  {
  }
}
