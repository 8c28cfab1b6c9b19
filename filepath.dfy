/** Go's `filepath.Join` and `filepath.Clean` for '/'-separated paths,
    the lexical path arithmetic one variant of the controller uses to build
    object paths. A path is split at every '/', empty and "." elements are
    dropped, ".." removes the element before it, and what remains is joined
    again with single slashes. */
module FilePath {

  /** `strings.Split(s, "/")`: the text between consecutive slashes. */
  function Split(s: string): (parts: seq<string>)
    ensures |parts| >= 1
    ensures forall i :: 0 <= i < |parts| ==> '/' !in parts[i]
    decreases |s|
  {
    if s == [] then [""]
    else
      var rest := Split(s[1..]);
      if s[0] == '/' then [""] + rest
      else [[s[0]] + rest[0]] + rest[1..]
  }

  /** `strings.Join(parts, "/")`. */
  function JoinWith(parts: seq<string>): (s: string)
    ensures |parts| > 0 && parts[0] != "" ==> |s| > 0 && s[0] == parts[0][0]
    decreases |parts|
  {
    if parts == [] then ""
    else if |parts| == 1 then parts[0]
    else parts[0] + "/" + JoinWith(parts[1..])
  }

  /** An element that Clean keeps as it is. */
  predicate IsNormalElement(e: string)
  {
    e != "" && e != "." && e != ".." && '/' !in e
  }

  /** One pass over the elements: `stack` holds the elements kept so far. */
  function CleanElements(stack: seq<string>, elems: seq<string>, rooted: bool): (kept: seq<string>)
    requires forall i :: 0 <= i < |stack| ==> stack[i] != "" && '/' !in stack[i]
    requires forall i :: 0 <= i < |elems| ==> '/' !in elems[i]
    ensures forall i :: 0 <= i < |kept| ==> kept[i] != "" && '/' !in kept[i]
    decreases |elems|
  {
    if elems == [] then stack
    else
      var e := elems[0];
      var next :=
        if e == "" || e == "." then stack
        else if e == ".." then
          (if |stack| > 0 && stack[|stack| - 1] != ".." then stack[..|stack| - 1]
           else if rooted then stack
           else stack + [".."])
        else stack + [e];
      CleanElements(next, elems[1..], rooted)
  }

  /** `filepath.Clean`: the shortest lexically equivalent path; never empty,
      and rooted exactly when its argument is. */
  function Clean(p: string): (c: string)
    ensures c != ""
    ensures p != "" ==> (c[0] == '/' <==> p[0] == '/')
  {
    if p == "" then "."
    else
      var rooted := p[0] == '/';
      var kept := CleanElements([], Split(p), rooted);
      if rooted then "/" + JoinWith(kept)
      else
        var c := JoinWith(kept);
        if c == "" then "." else c
  }

  /** `filepath.Join`: the elements from the first non-empty one on,
      joined by '/' and cleaned; "" when every element is empty. */
  function Join(elems: seq<string>): (p: string)
    ensures (forall i :: 0 <= i < |elems| ==> elems[i] == "") ==> p == ""
    ensures forall k :: 0 <= k < |elems| && elems[k] != "" && (forall j :: 0 <= j < k ==> elems[j] == "") ==>
      p == Clean(JoinWith(elems[k..]))
    decreases |elems|
  {
    if elems == [] then ""
    else if elems[0] != "" then Clean(JoinWith(elems))
    else Join(elems[1..])
  }

  /** Splitting at a slash splits the two sides independently. */
  lemma {:induction false} SplitAtSlash(x: string, y: string)
    ensures Split(x + "/" + y) == Split(x) + Split(y)
    decreases |x|
  {
    if x == [] {
      assert x + "/" + y == "/" + y;
      assert ("/" + y)[1..] == y;
    } else {
      assert (x + "/" + y)[0] == x[0];
      assert (x + "/" + y)[1..] == x[1..] + "/" + y;
      SplitAtSlash(x[1..], y);
    }
  }

  /** A text without a slash is a single element. */
  lemma {:induction false} SplitWithoutSlash(s: string)
    requires '/' !in s
    ensures Split(s) == [s]
    decreases |s|
  {
    if s != [] {
      assert '/' !in s[1..] by {
        forall i | 0 <= i < |s[1..]| ensures s[1..][i] != '/' {
          assert s[1..][i] == s[i + 1];
        }
      }
      SplitWithoutSlash(s[1..]);
      assert [s[0]] + s[1..] == s;
    }
  }

  /** Splitting undoes joining. */
  lemma {:induction false} SplitJoinWith(parts: seq<string>)
    requires |parts| >= 1
    requires forall i :: 0 <= i < |parts| ==> '/' !in parts[i]
    ensures Split(JoinWith(parts)) == parts
    decreases |parts|
  {
    if |parts| == 1 {
      SplitWithoutSlash(parts[0]);
    } else {
      SplitWithoutSlash(parts[0]);
      SplitJoinWith(parts[1..]);
      SplitAtSlash(parts[0], JoinWith(parts[1..]));
      assert [parts[0]] + parts[1..] == parts;
    }
  }

  /** Joining undoes splitting. */
  lemma {:induction false} JoinWithSplit(s: string)
    ensures JoinWith(Split(s)) == s
    decreases |s|
  {
    if s != [] {
      JoinWithSplit(s[1..]);
      var rest := Split(s[1..]);
      if s[0] == '/' {
        assert [""] + rest == Split(s);
        assert ([""] + rest)[1..] == rest;
        assert s == "/" + s[1..];
      } else {
        var parts := Split(s);
        assert parts == [[s[0]] + rest[0]] + rest[1..];
        if |rest| == 1 {
          assert s == [s[0]] + s[1..];
        } else {
          assert parts[1..] == rest[1..];
          assert JoinWith(rest) == rest[0] + "/" + JoinWith(rest[1..]);
          assert s == [s[0]] + s[1..];
        }
      }
    }
  }

  /** Normal elements pass through Clean's pass unchanged. */
  lemma {:induction false} CleanKeepsNormal(stack: seq<string>, elems: seq<string>, rooted: bool)
    requires forall i :: 0 <= i < |stack| ==> stack[i] != "" && '/' !in stack[i]
    requires forall i :: 0 <= i < |elems| ==> '/' !in elems[i] && IsNormalElement(elems[i])
    ensures CleanElements(stack, elems, rooted) == stack + elems
    decreases |elems|
  {
    if elems != [] {
      CleanKeepsNormal(stack + [elems[0]], elems[1..], rooted);
      assert stack + [elems[0]] + elems[1..] == stack + elems;
    }
  }

  /** Joining two non-empty runs of elements puts one slash between them. */
  lemma {:induction false} JoinWithAppend(a: seq<string>, b: seq<string>)
    requires |a| >= 1 && |b| >= 1
    ensures JoinWith(a + b) == JoinWith(a) + "/" + JoinWith(b)
    decreases |a|
  {
    if |a| == 1 {
      assert (a + b)[1..] == b;
    } else {
      JoinWithAppend(a[1..], b);
      assert (a + b)[1..] == a[1..] + b;
    }
  }

  /** Joining puts the first element, a slash, then the rest's join. */
  lemma JoinWithCons(h: string, rest: seq<string>)
    requires |rest| >= 1
    ensures JoinWith([h] + rest) == h + "/" + JoinWith(rest)
  {
    assert ([h] + rest)[1..] == rest;
  }
}
