/** Types shared by every component of the model. */
module Common {
  /** An octet of an encoded packet, of a NAL unit or of a stored blob. */
  type byte = x: int | 0 <= x < 256

  datatype Option<+T> = None | Some(value: T)

  function Max(x: int, y: int): int {
    if x < y then y else x
  }

  lemma AnElement<T>(s: set<T>) returns (x: T)
    requires s != {}
    ensures x in s
  {
    x :| x in s;
  }

  /** Some element of a non-empty set, for loops over a set in any order. */
  method Choose<T(==)>(s: set<T>) returns (x: T)
    requires s != {}
    ensures x in s
  {
    ghost var some := AnElement(s);
    x :| x in s;
  }

  lemma AnEntry<T>(s: multiset<T>) returns (x: T)
    requires s != multiset{}
    ensures x in s
  {
    x :| x in s;
  }

  lemma SubsetSize<T>(small: set<T>, large: set<T>)
    requires small <= large
    ensures |small| <= |large|
    ensures small != large ==> |small| < |large|
  {
    assert large == small + (large - small);
    if small != large {
      var x := AnElement(large - small);
    }
  }

  predicate IsSpace(c: char) {
    c == ' ' || '\t' <= c <= '\r'
  }

  /** The text without its leading white space. */
  function TrimLeft(text: string): string {
    if text != "" && IsSpace(text[0]) then TrimLeft(text[1..]) else text
  }

  function TrimRight(text: string): string {
    if text != "" && IsSpace(text[|text| - 1]) then TrimRight(text[..|text| - 1]) else text
  }

  /** The text without white space at either end. */
  function Trim(text: string): string {
    TrimRight(TrimLeft(text))
  }

  predicate Blank(text: string) {
    Trim(text) == ""
  }

  lemma {:induction false} TrimLeftCuts(text: string) returns (i: nat)
    ensures i <= |text| && TrimLeft(text) == text[i..] && (forall k :: 0 <= k < i ==> IsSpace(text[k]))
    ensures i < |text| ==> !IsSpace(text[i])
  {
    i := 0;
    if text != "" && IsSpace(text[0]) {
      i := TrimLeftCuts(text[1..]);
      assert forall k :: 0 < k <= i ==> text[k] == text[1..][k - 1];
      i := i + 1;
    }
  }

  lemma {:induction false} TrimRightCuts(text: string) returns (j: nat)
    ensures j <= |text| && TrimRight(text) == text[..j] && (forall k :: j <= k < |text| ==> IsSpace(text[k]))
    ensures j > 0 ==> !IsSpace(text[j - 1])
  {
    j := |text|;
    if text != "" && IsSpace(text[|text| - 1]) {
      j := TrimRightCuts(text[..|text| - 1]);
    }
  }

  /** Blank text is white space throughout. */
  lemma BlankIff(text: string)
    ensures Blank(text) <==> forall i :: 0 <= i < |text| ==> IsSpace(text[i])
  {
    var i := TrimLeftCuts(text);
    var j := TrimRightCuts(text[i..]);
    if !Blank(text) {
      assert Trim(text)[j - 1] == text[i + j - 1];
    }
  }
}
