/** Text cut at separators, as the readers of trace lines do it. */
module Fields {
  import opened Common

  datatype Field = Field(text: seq<char>, sep: char, rest: seq<char>)

  predicate Without(s: seq<char>, seps: set<char>) {
    forall i | 0 <= i < |s| :: s[i] !in seps
  }

  /** The text up to the first separator, that separator, and the text after it.  None: there is none. */
  function Cut(s: seq<char>, seps: set<char>): Option<Field> {
    if s == [] then None
    else if s[0] in seps then Some(Field([], s[0], s[1..]))
    else
      match Cut(s[1..], seps)
      case None => None
      case Some(f) => Some(Field([s[0]] + f.text, f.sep, f.rest))
  }

  lemma {:induction false} CutAt(text: seq<char>, sep: char, rest: seq<char>, seps: set<char>)
    requires Without(text, seps) && sep in seps
    ensures Cut(text + [sep] + rest, seps) == Some(Field(text, sep, rest))
  {
    var s := text + [sep] + rest;
    if text == [] {
      assert s[1..] == rest;
    } else {
      CutAt(text[1..], sep, rest, seps);
      assert s[0] == text[0] && s[1..] == text[1..] + [sep] + rest;
      assert [text[0]] + text[1..] == text;
    }
  }

  lemma {:induction false} CutNone(s: seq<char>, seps: set<char>)
    requires Without(s, seps)
    ensures Cut(s, seps) == None
  {
    if s != [] {
      CutNone(s[1..], seps);
    }
  }

  /** What a cut says of the whole text. */
  lemma {:induction false} CutMeans(s: seq<char>, seps: set<char>)
    ensures Cut(s, seps).None? ==> Without(s, seps)
    ensures Cut(s, seps).Some? ==>
              var f := Cut(s, seps).value;
              s == f.text + [f.sep] + f.rest && Without(f.text, seps) && f.sep in seps
  {
    if s != [] {
      CutMeans(s[1..], seps);
    }
  }

  /** A cut found by its position. */
  lemma CutSlice(s: seq<char>, i: nat, k: nat, seps: set<char>)
    requires i <= k <= |s| && Without(s[i..k], seps) && (k < |s| ==> s[k] in seps)
    ensures Cut(s[i..], seps) == if k == |s| then None else Some(Field(s[i..k], s[k], s[k + 1..]))
  {
    if k == |s| {
      assert s[i..k] == s[i..];
      CutNone(s[i..], seps);
    } else {
      CutAt(s[i..k], s[k], s[k + 1..], seps);
      assert s[i..] == s[i..k] + [s[k]] + s[k + 1..];
    }
  }

  lemma WithoutSnoc(s: seq<char>, c: char, seps: set<char>)
    requires Without(s, seps) && c !in seps
    ensures Without(s + [c], seps)
  {
  }
}
