/** `String.prototype.trim` of ECMAScript, used on the label typed into the modal (script.js:268). */
module Text {

  /** WhiteSpace and LineTerminator code points of ECMAScript (section 12.2 and 12.3 of
      ECMA-262), which `trim` strips from both ends. */
  predicate IsTrimmable(c: char)
  {
    c == '\t' || c == '\n' || c == '\U{000B}' || c == '\U{000C}' || c == '\r' || c == ' ' ||
    c == '\U{00A0}' || c == '\U{1680}' || ('\U{2000}' <= c <= '\U{200A}') ||
    c == '\U{2028}' || c == '\U{2029}' || c == '\U{202F}' || c == '\U{205F}' ||
    c == '\U{3000}' || c == '\U{FEFF}'
  }

  predicate AllTrimmable(s: string)
  {
    forall i :: 0 <= i < |s| ==> IsTrimmable(s[i])
  }

  /** Drops the leading trimmable characters. */
  function TrimStart(s: string): (r: string)
    ensures |r| <= |s|
  {
    if |s| > 0 && IsTrimmable(s[0]) then TrimStart(s[1..]) else s
  }

  /** Drops the trailing trimmable characters. */
  function TrimEnd(s: string): (r: string)
    ensures |r| <= |s|
  {
    if |s| > 0 && IsTrimmable(s[|s| - 1]) then TrimEnd(s[..|s| - 1]) else s
  }

  /** `s.trim()`. */
  function Trim(s: string): (r: string)
    ensures |r| <= |s|
  {
    TrimEnd(TrimStart(s))
  }

  /** `TrimStart` keeps the suffix that starts at the first character that is not
      trimmable; everything before it is trimmable. */
  lemma {:induction false} TrimStartSpec(s: string)
    ensures var r := TrimStart(s);
            r == s[|s| - |r|..] && AllTrimmable(s[..|s| - |r|]) && (r == [] || !IsTrimmable(r[0]))
  {
    if |s| > 0 && IsTrimmable(s[0]) {
      TrimStartSpec(s[1..]);
      var r := TrimStart(s[1..]);
      assert s[..|s| - |r|] == [s[0]] + s[1..][..|s| - 1 - |r|];
    }
  }

  /** `TrimEnd` keeps the prefix that ends at the last character that is not trimmable;
      everything after it is trimmable. */
  lemma {:induction false} TrimEndSpec(s: string)
    ensures var r := TrimEnd(s);
            r == s[..|r|] && AllTrimmable(s[|r|..]) && (r == [] || !IsTrimmable(r[|r| - 1]))
  {
    if |s| > 0 && IsTrimmable(s[|s| - 1]) {
      TrimEndSpec(s[..|s| - 1]);
      var r := TrimEnd(s[..|s| - 1]);
      assert s[|r|..] == s[..|s| - 1][|r|..] + [s[|s| - 1]];
    }
  }

  /** What `trim` promises: a contiguous slice of `s` with only trimmable characters cut
      off around it, neither beginning nor ending with one, and empty exactly when `s` is
      blank. */
  lemma TrimSpec(s: string)
    ensures var r := Trim(s);
            exists i, j :: 0 <= i <= j <= |s| && r == s[i..j] && AllTrimmable(s[..i]) && AllTrimmable(s[j..])
    ensures var r := Trim(s); r == [] || (!IsTrimmable(r[0]) && !IsTrimmable(r[|r| - 1]))
    ensures Trim(s) == [] <==> AllTrimmable(s)
  {
    var t := TrimStart(s);
    var r := TrimEnd(t);
    TrimStartSpec(s);
    TrimEndSpec(t);
    var i := |s| - |t|;
    SliceSplit(s, i, i + |r|, t, r);
  }

  /** `s` cut at `i` and `j`, where `t` is the part after `i` and `r` the part of `t`
      before `j`: given a blank head and tail, `r` is the slice between the cuts and is
      empty exactly when `s` is blank. */
  lemma SliceSplit(s: string, i: nat, j: nat, t: string, r: string)
    requires i <= j <= |s| && t == s[i..] && r == t[..j - i]
    requires AllTrimmable(s[..i]) && AllTrimmable(t[|r|..])
    requires r == [] || !IsTrimmable(r[0])
    ensures r == s[i..j] && AllTrimmable(s[j..])
    ensures r == [] <==> AllTrimmable(s)
  {
    assert s[j..] == t[|r|..];
    if r != [] {
      assert s[i] == r[0];
    } else {
      forall k | 0 <= k < |s|
        ensures IsTrimmable(s[k])
      {
        if k < i {
          assert s[k] == s[..i][k];
        } else {
          assert s[k] == s[j..][k - j];
        }
      }
    }
  }

  /** Trimming a trimmed label changes nothing. */
  lemma TrimIdempotent(s: string)
    ensures Trim(Trim(s)) == Trim(s)
  {
    TrimSpec(s);
  }
}
