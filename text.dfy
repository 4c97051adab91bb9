/** `String.prototype.trim` and the facts the form checks rely on. */
module Text {

  /** The characters `String.prototype.trim` removes: white space and line terminators. */
  predicate IsWhite(c: char)
  {
    var n := c as int;
    n == 9 || n == 10 || n == 11 || n == 12 || n == 13 || n == 32 || n == 0xA0 || n == 0x1680
      || (0x2000 <= n <= 0x200A) || n == 0x2028 || n == 0x2029 || n == 0x202F || n == 0x205F
      || n == 0x3000 || n == 0xFEFF
  }

  function TrimStart(s: string): string
  {
    if s != [] && IsWhite(s[0]) then TrimStart(s[1..]) else s
  }

  function TrimEnd(s: string): string
  {
    if s != [] && IsWhite(s[|s| - 1]) then TrimEnd(s[..|s| - 1]) else s
  }

  /** `s.trim()`. */
  function Trim(s: string): string
  {
    TrimEnd(TrimStart(s))
  }

  lemma {:induction false} TrimStartShape(s: string)
    ensures exists i :: 0 <= i <= |s| && TrimStart(s) == s[i..] && forall j :: 0 <= j < i ==> IsWhite(s[j])
    ensures TrimStart(s) != [] ==> !IsWhite(TrimStart(s)[0])
  {
    if s != [] && IsWhite(s[0]) {
      TrimStartShape(s[1..]);
      var i :| 0 <= i <= |s[1..]| && TrimStart(s[1..]) == s[1..][i..] && forall j :: 0 <= j < i ==> IsWhite(s[1..][j]);
      assert s[1..][i..] == s[i + 1..];
      assert forall j :: 0 <= j < i + 1 ==> IsWhite(s[j]) by {
        forall j | 0 <= j < i + 1 ensures IsWhite(s[j]) {
          if j > 0 {
            assert s[j] == s[1..][j - 1];
          }
        }
      }
    } else {
      assert s[0..] == s;
    }
  }

  lemma {:induction false} TrimEndShape(s: string)
    ensures exists i :: 0 <= i <= |s| && TrimEnd(s) == s[..i] && forall j :: i <= j < |s| ==> IsWhite(s[j])
    ensures TrimEnd(s) != [] ==> !IsWhite(TrimEnd(s)[|TrimEnd(s)| - 1])
  {
    if s != [] && IsWhite(s[|s| - 1]) {
      var init := s[..|s| - 1];
      TrimEndShape(init);
      var i :| 0 <= i <= |init| && TrimEnd(init) == init[..i] && forall j :: i <= j < |init| ==> IsWhite(init[j]);
      assert init[..i] == s[..i];
      forall j | i <= j < |s| ensures IsWhite(s[j]) {
        if j < |init| {
          assert s[j] == init[j];
        }
      }
    } else {
      assert s[..|s|] == s;
    }
  }

  lemma {:induction false} TrimStartWhite(s: string)
    requires forall i :: 0 <= i < |s| ==> IsWhite(s[i])
    ensures TrimStart(s) == []
  {
    if s != [] {
      TrimStartWhite(s[1..]);
    }
  }

  lemma WhiteWhenTrimEmpty(s: string)
    requires Trim(s) == []
    ensures forall i :: 0 <= i < |s| ==> IsWhite(s[i])
  {
    TrimStartShape(s);
    var a :| 0 <= a <= |s| && TrimStart(s) == s[a..] && forall j :: 0 <= j < a ==> IsWhite(s[j]);
    TrimEndShape(TrimStart(s));
    assert TrimStart(s) == [];
  }

  /** The trimmed text is empty exactly when every character is white space. */
  lemma TrimEmpty(s: string)
    ensures Trim(s) == [] <==> forall i :: 0 <= i < |s| ==> IsWhite(s[i])
  {
    if forall i :: 0 <= i < |s| ==> IsWhite(s[i]) {
      TrimStartWhite(s);
    }
    if Trim(s) == [] {
      WhiteWhenTrimEmpty(s);
    }
  }

  /** A non-empty trimmed text begins and ends with a character that is not white space. */
  lemma TrimEdges(s: string)
    requires Trim(s) != []
    ensures !IsWhite(Trim(s)[0]) && !IsWhite(Trim(s)[|Trim(s)| - 1])
  {
    var t := TrimStart(s);
    TrimStartShape(s);
    TrimEndShape(t);
    var b :| 0 <= b <= |t| && TrimEnd(t) == t[..b] && forall j :: b <= j < |t| ==> IsWhite(t[j]);
    assert Trim(s)[0] == t[0];
  }
}
