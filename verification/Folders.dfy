/**
  Removal of a folder and of the entry points inside it (`removeFolder` of `Medialibrary.java`).
  The native side removes entry points in the background, so each listing may be shorter than the one before.
 */
module Folders {
  // ---------------------------------------------------------------------------
  // String.contains
  // ---------------------------------------------------------------------------

  predicate FoundAt(s: string, t: string, i: int) {
    0 <= i <= |s| - |t| && s[i..i + |t|] == t
  }

  predicate Contains(s: string, t: string) {
    exists i: int :: 0 <= i <= |s| && FoundAt(s, t, i)
  }

  /** A folder that `removeFolder(t)` descends into. */
  predicate Inside(s: string, t: string) {
    s != t && Contains(s, t)
  }

  lemma InsideIsLonger(s: string, t: string)
    requires Inside(s, t)
    ensures |s| > |t|
  {
    var i: int :| 0 <= i <= |s| && FoundAt(s, t, i);
    assert s[0..|s|] == s;
  }

  /** Contained means: with something before it and something after it. */
  lemma ContainsIff(s: string, t: string)
    ensures Contains(s, t) <==> exists before: string, after: string :: s == before + t + after
  {
    if Contains(s, t) {
      var i: int :| 0 <= i <= |s| && FoundAt(s, t, i);
      assert s == s[..i] + t + s[i + |t|..];
    }
    forall before: string, after: string | s == before + t + after ensures Contains(s, t) {
      assert s[|before|..|before| + |t|] == t;
      assert FoundAt(s, t, |before|);
    }
  }

  lemma ContainsTransitive(s: string, t: string, u: string)
    requires Contains(s, t) && Contains(t, u)
    ensures Contains(s, u)
  {
    var i: int :| 0 <= i <= |s| && FoundAt(s, t, i);
    var j: int :| 0 <= j <= |t| && FoundAt(t, u, j);
    assert forall k :: 0 <= k < |u| ==> u[k] == t[j..j + |u|][k] == s[i..i + |t|][j + k] == s[i + j..i + j + |u|][k];
    assert FoundAt(s, u, i + j);
  }

  lemma InsideTransitive(s: string, t: string, u: string)
    requires Contains(s, t) && Inside(t, u)
    ensures Inside(s, u)
  {
    ContainsTransitive(s, t, u);
    InsideIsLonger(t, u);
    var i: int :| 0 <= i <= |s| && FoundAt(s, t, i);
    assert |s| >= |t| > |u|;
  }

  // ---------------------------------------------------------------------------
  // Encoding of what is sent to the native side
  // ---------------------------------------------------------------------------

  /** One of `URI_AUTHORIZED_CHARS`. */
  predicate Authorized(c: char) {
    c == '\'' || c == '(' || c == ')' || c == '*'
  }

  predicate Clean(s: string) {
    forall i :: 0 <= i < |s| ==> !Authorized(s[i])
  }

  function HexDigit(n: nat): char
    requires n < 16
  {
    "0123456789abcdef"[n]
  }

  function Hex(c: char): string
    requires c as int < 256
  {
    [HexDigit(c as int / 16), HexDigit(c as int % 16)]
  }

  function EncodedChar(c: char): string {
    if Authorized(c) then "%" + Hex(c) else [c]
  }

  /** `encodeVLCString`. */
  function EncodedString(mrl: string): string {
    if mrl == "" then ""
    else EncodedString(mrl[..|mrl| - 1]) + EncodedChar(mrl[|mrl| - 1])
  }

  lemma EncodedCharIsClean(c: char)
    ensures Clean(EncodedChar(c))
  {
    if Authorized(c) {
      assert Hex('\'') == "27" && Hex('(') == "28" && Hex(')') == "29" && Hex('*') == "2a";
    }
  }

  lemma CleanBoth(a: string, b: string)
    ensures Clean(a + b) <==> Clean(a) && Clean(b)
  {
    if Clean(a + b) {
      assert forall i :: 0 <= i < |a| ==> a[i] == (a + b)[i];
      assert forall i :: 0 <= i < |b| ==> b[i] == (a + b)[|a| + i];
    }
  }

  /** None of the authorized characters is left. */
  lemma {:induction false} EncodedIsClean(mrl: string)
    ensures Clean(EncodedString(mrl))
  {
    if mrl == "" {
    } else {
      var front, c := mrl[..|mrl| - 1], mrl[|mrl| - 1];
      EncodedIsClean(front);
      EncodedCharIsClean(c);
      CleanBoth(EncodedString(front), EncodedChar(c));
    }
  }

  /** A string without them is not changed, and no other is left as it is. */
  lemma {:induction false} CleanIsKept(mrl: string)
    ensures Clean(mrl) <==> EncodedString(mrl) == mrl
  {
    EncodedIsClean(mrl);
    if mrl == "" {
    } else if Clean(mrl) {
      var front, c := mrl[..|mrl| - 1], mrl[|mrl| - 1];
      assert mrl == front + [c];
      CleanBoth(front, [c]);
      CleanIsKept(front);
      assert !Authorized([c][0]);
    }
  }

  lemma Append<T>(s: seq<T>, t: seq<T>, u: seq<T>)
    ensures s + t + u == s + (t + u)
  {
  }

  predicate IsHex(c: char) { '0' <= c <= '9' || 'a' <= c <= 'f' }

  function HexValue(c: char): nat
    requires IsHex(c)
  {
    if c <= '9' then (c - '0') as nat else 10 + (c - 'a') as nat
  }

  /** Reads an escape back as the character of its code. */
  function Decoded(s: string): string {
    if s == "" then ""
    else if s[0] == '%' && |s| >= 3 && IsHex(s[1]) && IsHex(s[2])
    then [(16 * HexValue(s[1]) + HexValue(s[2])) as char] + Decoded(s[3..])
    else [s[0]] + Decoded(s[1..])
  }

  lemma DecodeChar(c: char, rest: string)
    requires c != '%'
    ensures Decoded(EncodedChar(c) + rest) == [c] + Decoded(rest)
  {
    var s := EncodedChar(c) + rest;
    if Authorized(c) {
      assert Hex('\'') == "27" && Hex('(') == "28" && Hex(')') == "29" && Hex('*') == "2a";
      assert s[0] == '%' && s[3..] == rest;
    } else {
      assert s == [c] + rest && s[1..] == rest;
    }
  }

  lemma {:induction false} DecodeEncoded(mrl: string, rest: string)
    requires '%' !in mrl
    ensures Decoded(EncodedString(mrl) + rest) == mrl + Decoded(rest)
  {
    if mrl == "" {
      assert EncodedString(mrl) + rest == rest;
    } else {
      var front, c := mrl[..|mrl| - 1], mrl[|mrl| - 1];
      assert c in mrl && forall d <- front :: d in mrl;
      var tail := EncodedChar(c) + rest;
      DecodeChar(c, rest);
      DecodeEncoded(front, tail);
      Append(EncodedString(front), EncodedChar(c), rest);
      assert EncodedString(mrl) + rest == EncodedString(front) + tail;
      Append(front, [c], Decoded(rest));
      assert mrl == front + [c];
    }
  }

  /** Every escape is the code of its character: without percent signs before, the encoding is undone by decoding. */
  lemma DecodeUndoesEncode(mrl: string)
    requires '%' !in mrl
    ensures Decoded(EncodedString(mrl)) == mrl
  {
    DecodeEncoded(mrl, "");
    assert EncodedString(mrl) + "" == EncodedString(mrl);
  }

  method EncodeVLCString(mrl: string) returns (encoded: string)
    ensures encoded == EncodedString(mrl)
  {
    encoded := "";
    for i := 0 to |mrl|
      invariant encoded == EncodedString(mrl[..i])
    {
      assert mrl[..i + 1][..i] == mrl[..i];
      encoded := encoded + if Authorized(mrl[i]) then "%" + Hex(mrl[i]) else [mrl[i]];
    }
    assert mrl[..|mrl|] == mrl;
  }

  /** `encodeVLCMrl`, given Android's `Uri.encode`. */
  function EncodedMrl(uriEncode: string -> string, mrl: string): string {
    EncodedString(uriEncode(if mrl != "" && mrl[0] == '/' then "file://" + mrl else mrl))
  }

  /** A path is sent as a file location, anything else as it is. */
  lemma PathsBecomeFiles(uriEncode: string -> string, path: string)
    ensures EncodedMrl(uriEncode, "/" + path) == EncodedString(uriEncode("file:///" + path))
    ensures EncodedMrl(uriEncode, "") == EncodedString(uriEncode(""))
    ensures path != "" && path[0] != '/' ==> EncodedMrl(uriEncode, path) == EncodedString(uriEncode(path))
  {
    assert "file://" + ("/" + path) == "file:///" + path;
  }

  // ---------------------------------------------------------------------------
  // Entry points
  // ---------------------------------------------------------------------------

  /** `list` without the entries in `gone`. */
  function Without(list: seq<string>, gone: set<string>): (r: seq<string>)
    ensures forall x :: x in r <==> x in list && x !in gone
  {
    if list == [] then [] else
    (if list[0] in gone then [] else [list[0]]) + Without(list[1..], gone)
  }

  function Longest(list: seq<string>): (n: nat)
    ensures forall x <- list :: |x| <= n
    ensures n == 0 || exists x <- list :: |x| == n
  {
    if list == [] then 0 else
    var n := Longest(list[1..]);
    if |list[0]| > n then |list[0]| else n
  }

  /** Every request comes after a request for each of the `origin` folders inside it. */
  predicate InnerFirst(requests: seq<string>, origin: seq<string>) {
    forall i, f :: 0 <= i < |requests| && f in origin && Inside(f, requests[i]) ==> f in requests[..i]
  }

  lemma InnerFirstMore(requests: seq<string>, m: string, origin: seq<string>)
    requires InnerFirst(requests, origin)
    requires forall f <- origin :: Inside(f, m) ==> f in requests
    ensures InnerFirst(requests + [m], origin)
  {
    var more := requests + [m];
    forall i, f | 0 <= i < |more| && f in origin && Inside(f, more[i]) ensures f in more[..i] {
      assert more[..i] == requests[..i];
      if i == |requests| {
        assert requests[..i] == requests;
      }
    }
  }

  /** The folders to remove along with `m`. */
  predicate Target(f: string, m: string, list: seq<string>) {
    f == m || (f in list && Contains(f, m))
  }

  /** `issued` holds only folders inside `m`, and those among the first `i`. */
  predicate Descended(issued: seq<string>, m: string, folders: seq<string>, i: nat)
    requires i <= |folders|
  {
    && (forall f <- issued :: f in folders && Inside(f, m))
    && (forall f <- folders[..i] :: Inside(f, m) ==> f in issued)
  }

  lemma SkipFolder(issued: seq<string>, m: string, folders: seq<string>, i: nat)
    requires i < |folders| && Descended(issued, m, folders, i) && !Inside(folders[i], m)
    ensures Descended(issued, m, folders, i + 1)
  {
    assert folders[..i + 1] == folders[..i] + [folders[i]];
  }

  lemma EnterFolder(issued: seq<string>, inner: seq<string>, m: string, list: seq<string>, folders: seq<string>, i: nat)
    requires i < |folders| && Descended(issued, m, folders, i) && Inside(folders[i], m)
    requires forall f <- list :: f in folders
    requires forall f :: f in inner <==> Target(f, folders[i], list)
    ensures Descended(issued + inner, m, folders, i + 1)
  {
    var folder := folders[i];
    assert folders[..i + 1] == folders[..i] + [folder];
    assert Target(folder, folder, list);
    forall f | f in inner ensures f in folders && Inside(f, m) {
      assert Target(f, folder, list);
      if f != folder {
        InsideTransitive(f, folder, m);
      }
    }
  }

  lemma AllDescended(issued: seq<string>, m: string, folders: seq<string>)
    requires Descended(issued, m, folders, |folders|)
    ensures forall f :: f in issued + [m] <==> Target(f, m, folders)
    ensures forall f <- folders :: Inside(f, m) ==> f in issued
    ensures m !in issued
  {
    assert folders[..|folders|] == folders;
    assert FoundAt(m, m, 0);
  }

  lemma LastOnce(done: seq<string>, m: string)
    requires m !in done
    ensures var issued := done + [m];
            forall k :: 0 <= k < |issued| ==> (issued[k] == m <==> k == |issued| - 1)
  {
    assert forall k :: 0 <= k < |done| ==> done[k] in done;
  }

  /** What the native side was sent for the requests. */
  predicate Encodes(sent: seq<string>, requests: seq<string>, uriEncode: string -> string) {
    |sent| == |requests| && forall i :: 0 <= i < |sent| ==> sent[i] == EncodedMrl(uriEncode, requests[i])
  }

  class Medialibrary {
    const mIsInitiated: bool
    const uriEncode: string -> string
    ghost const origin: seq<string>
    ghost const longest: nat
    var entryPoints: seq<string>
    var requests: seq<string>
    var sent: seq<string>

    /** An entry point only disappears when its removal was requested. */
    ghost predicate Valid()
      reads this
    {
      && (forall f <- entryPoints :: f in origin && |f| <= longest)
      && (forall f <- origin :: f in entryPoints || f in requests)
      && InnerFirst(requests, origin)
      && Encodes(sent, requests, uriEncode)
    }

    constructor (initiated: bool, list: seq<string>, uriEncode: string -> string)
      ensures Valid() && mIsInitiated == initiated && origin == list && this.uriEncode == uriEncode
      ensures entryPoints == list && requests == []
    {
      mIsInitiated, origin, longest := initiated, list, Longest(list);
      this.uriEncode := uriEncode;
      entryPoints, requests, sent := list, [], [];
    }

    method GetFoldersList() returns (folders: seq<string>)
      ensures folders == if mIsInitiated then entryPoints else []
    {
      if !mIsInitiated {
        return [];
      }
      folders := entryPoints;
    }

    /** The native request; by the time it returns, any of the removals requested so far may be complete. */
    method RemoveEntryPoint(mrl: string)
      requires Valid() && forall f <- origin :: Inside(f, mrl) ==> f in requests
      modifies this
      ensures Valid() && requests == old(requests) + [mrl]
      ensures forall f <- entryPoints :: f in old(entryPoints)
      ensures forall f <- old(entryPoints) :: f in entryPoints || f in requests
    {
      var complete: set<string> := *;
      InnerFirstMore(requests, mrl, origin);
      var absolute := if mrl != "" && mrl[0] == '/' then "file://" + mrl else mrl;
      var encoded := EncodeVLCString(uriEncode(absolute));
      sent := sent + [encoded];
      requests := requests + [mrl];
      entryPoints := Without(entryPoints, set f <- requests | f in complete);
    }

    /** Each nested call is for a longer folder, and none is longer than the longest entry point. */
    method RemoveFolder(mrl: string) returns (ghost issued: seq<string>)
      requires Valid()
      modifies this
      ensures Valid() && requests == old(requests) + issued
      ensures !mIsInitiated ==> issued == [] && entryPoints == old(entryPoints)
      ensures mIsInitiated ==>
        && (forall f :: f in issued <==> Target(f, mrl, old(entryPoints)))
        && (forall k :: 0 <= k < |issued| ==> (issued[k] == mrl <==> k == |issued| - 1))
      ensures forall f <- entryPoints :: f in old(entryPoints)
      decreases if |mrl| <= longest then longest - |mrl| + 1 else 0
    {
      issued := [];
      if !mIsInitiated {
        return;
      }
      var folders := GetFoldersList();
      for i := 0 to |folders|
        invariant Valid() && requests == old(requests) + issued
        invariant Descended(issued, mrl, folders, i)
        invariant forall f <- entryPoints :: f in folders
      {
        var folder := folders[i];
        if folder != mrl && Contains(folder, mrl) {
          InsideIsLonger(folder, mrl);
          ghost var list := entryPoints;
          ghost var inner := RemoveFolder(folder);
          EnterFolder(issued, inner, mrl, list, folders, i);
          Append(old(requests), issued, inner);
          issued := issued + inner;
        } else {
          SkipFolder(issued, mrl, folders, i);
        }
      }
      AllDescended(issued, mrl, folders);
      LastOnce(issued, mrl);
      RemoveEntryPoint(mrl);
      Append(old(requests), issued, [mrl]);
      issued := issued + [mrl];
    }
  }
}
