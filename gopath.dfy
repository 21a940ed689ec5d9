/** The lexical path operations of Go's `path` package that the container
    assembler relies on: `IsAbs`, `Clean`, `Dir`, `Base` and two-argument
    `Join`. `Clean` is modelled on the list of elements it reduces a path
    to, which is what lets the model prove how `Dir` walks up a path. */
module GoPath {
  import opened Common

  predicate IsAbs(p: string) { |p| > 0 && p[0] == '/' }

  /** The lexical reduction of `Clean`, element by element from the left:
      empty and `.` elements vanish, `..` removes the element before it
      when there is one that is not itself `..`, is dropped at the root of
      a rooted path and is kept otherwise. */
  function Reduce(stack: seq<string>, parts: seq<string>, rooted: bool): seq<string>
    decreases |parts|
  {
    if parts == [] then stack
    else
      var e := parts[0];
      if e == "" || e == "." then Reduce(stack, parts[1..], rooted)
      else if e == ".." then
        if |stack| > 0 && stack[|stack| - 1] != ".." then Reduce(stack[..|stack| - 1], parts[1..], rooted)
        else if rooted then Reduce(stack, parts[1..], rooted)
        else Reduce(stack + [".."], parts[1..], rooted)
      else Reduce(stack + [e], parts[1..], rooted)
  }

  /** The elements `Clean(p)` is made of. */
  function Elements(p: string): seq<string> {
    Reduce([], Split(p, '/'), IsAbs(p))
  }

  /** `path.Clean`. */
  function Clean(p: string): (r: string)
    ensures r != ""
    ensures IsAbs(r) <==> IsAbs(p)
  {
    if p == "" then "."
    else
      var body := Join(Elements(p), "/");
      if IsAbs(p) then "/" + body
      else if body == "" then "."
      else
        ElementsReduced(p);
        ReducedNoLeadingSlash(Elements(p), false);
        body
  }

  /** What a reduced element list looks like: no empty, `.` or slashed
      element, `..` only at the front, and none at all below the root. */
  predicate Reduced(elems: seq<string>, rooted: bool) {
    (forall i :: 0 <= i < |elems| ==> elems[i] != "" && elems[i] != "." && '/' !in elems[i])
    && (forall i, j :: 0 <= i < j < |elems| && elems[j] == ".." ==> elems[i] == "..")
    && (rooted ==> forall i :: 0 <= i < |elems| ==> elems[i] != "..")
  }

  /** Non-empty elements without a slash. */
  predicate Slashless(elems: seq<string>) {
    forall i :: 0 <= i < |elems| ==> elems[i] != "" && '/' !in elems[i]
  }

  lemma ReducedNoLeadingSlash(elems: seq<string>, rooted: bool)
    requires Reduced(elems, rooted)
    ensures Join(elems, "/") == "" || Join(elems, "/")[0] != '/'
  {
    if |elems| > 0 {
      assert elems[0] != "" && '/' !in elems[0];
      assert Join(elems, "/")[0] == elems[0][0];
    }
  }

  /** The reduction only ever produces reduced lists. */
  lemma {:induction false} ReduceIsReduced(stack: seq<string>, parts: seq<string>, rooted: bool)
    requires Reduced(stack, rooted)
    requires forall i :: 0 <= i < |parts| ==> '/' !in parts[i]
    ensures Reduced(Reduce(stack, parts, rooted), rooted)
    decreases |parts|
  {
    if parts != [] {
      var e := parts[0];
      assert forall i :: 0 <= i < |parts[1..]| ==> '/' !in parts[1..][i];
      if e == "" || e == "." {
        ReduceIsReduced(stack, parts[1..], rooted);
      } else if e == ".." {
        if |stack| > 0 && stack[|stack| - 1] != ".." {
          ReduceIsReduced(stack[..|stack| - 1], parts[1..], rooted);
        } else if rooted {
          ReduceIsReduced(stack, parts[1..], rooted);
        } else {
          assert forall i :: 0 <= i < |stack| ==> stack[i] == ".." by {
            if |stack| > 0 {
              forall i | 0 <= i < |stack| ensures stack[i] == ".." {
                if i < |stack| - 1 { assert stack[|stack| - 1] == ".."; }
              }
            }
          }
          ReduceIsReduced(stack + [".."], parts[1..], rooted);
        }
      } else {
        ReduceIsReduced(stack + [e], parts[1..], rooted);
      }
    }
  }

  lemma ElementsReduced(p: string)
    ensures Reduced(Elements(p), IsAbs(p))
  {
    ReduceIsReduced([], Split(p, '/'), IsAbs(p));
  }

  /** Reducing further parts that already form a reduced list with the stack
      appends them unchanged. */
  lemma {:induction false} ReduceReduced(stack: seq<string>, parts: seq<string>, rooted: bool)
    requires Reduced(stack + parts, rooted)
    ensures Reduce(stack, parts, rooted) == stack + parts
    decreases |parts|
  {
    if parts != [] {
      var e := parts[0];
      assert (stack + parts)[|stack|] == e;
      assert stack + [e] + parts[1..] == stack + parts;
      if e == ".." {
        assert |stack| > 0 ==> stack[|stack| - 1] == (stack + parts)[|stack| - 1] == "..";
      }
      ReduceReduced(stack + [e], parts[1..], rooted);
    }
  }

  lemma {:induction false} ReduceAppend(stack: seq<string>, parts: seq<string>, tail: seq<string>, rooted: bool)
    ensures Reduce(stack, parts + tail, rooted) == Reduce(Reduce(stack, parts, rooted), tail, rooted)
    decreases |parts|
  {
    if parts == [] {
      assert parts + tail == tail;
    } else {
      assert (parts + tail)[0] == parts[0];
      assert (parts + tail)[1..] == parts[1..] + tail;
      var e := parts[0];
      if e == "" || e == "." {
        ReduceAppend(stack, parts[1..], tail, rooted);
      } else if e == ".." {
        if |stack| > 0 && stack[|stack| - 1] != ".." {
          ReduceAppend(stack[..|stack| - 1], parts[1..], tail, rooted);
        } else if rooted {
          ReduceAppend(stack, parts[1..], tail, rooted);
        } else {
          ReduceAppend(stack + [".."], parts[1..], tail, rooted);
        }
      } else {
        ReduceAppend(stack + [e], parts[1..], tail, rooted);
      }
    }
  }

  lemma {:induction false} JoinAppend(elems: seq<string>, x: string, sep: string)
    requires |elems| >= 1
    ensures Join(elems + [x], sep) == Join(elems, sep) + sep + x
    decreases |elems|
  {
    if |elems| > 1 {
      assert (elems + [x])[1..] == elems[1..] + [x];
      JoinAppend(elems[1..], x, sep);
    }
  }

  /** Joining at a cut point: the text of the first `k` elements, a slash and
      the text of the rest. */
  lemma {:induction false} JoinAt(elems: seq<string>, k: nat)
    requires 1 <= k < |elems|
    ensures Join(elems, "/") == Join(elems[..k], "/") + "/" + Join(elems[k..], "/")
    decreases k
  {
    if k > 1 {
      JoinAt(elems[1..], k - 1);
      assert elems[..k][1..] == elems[1..][..k - 1];
      assert elems[1..][k - 1..] == elems[k..];
    }
  }

  /** A non-empty reduced relative list, written out, is a clean path, and a
      trailing slash after it is removed by cleaning. */
  lemma CleanReduced(elems: seq<string>)
    requires Reduced(elems, false) && |elems| >= 1
    ensures Clean(Join(elems, "/")) == Join(elems, "/")
    ensures Clean(Join(elems, "/") + "/") == Join(elems, "/")
  {
    var p := Join(elems, "/");
    ElementsOfJoin(elems);
    CleanOfElements(p, elems);
    CleanSlashed(elems, p + "/");
  }

  /** Cleaning the text of a reduced list followed by one slash. */
  lemma CleanSlashed(elems: seq<string>, s: string)
    requires Reduced(elems, false) && |elems| >= 1 && s == Join(elems, "/") + "/"
    ensures Clean(s) == Join(elems, "/")
  {
    ElementsOfJoinSlash(elems, s);
    CleanOfElements(s, elems);
  }

  /** A relative path whose elements form a non-empty reduced list cleans to
      that list written out. */
  lemma CleanOfElements(s: string, elems: seq<string>)
    requires s != "" && !IsAbs(s) && Elements(s) == elems && |elems| >= 1 && elems[0] != ""
    ensures Clean(s) == Join(elems, "/")
  {
    JoinNonEmpty(elems);
  }

  lemma JoinNonEmpty(elems: seq<string>)
    requires |elems| >= 1 && elems[0] != ""
    ensures Join(elems, "/") != ""
  {
  }

  /** The text of a reduced relative list splits and reduces back to it. */
  lemma ElementsOfJoin(elems: seq<string>)
    requires Reduced(elems, false) && |elems| >= 1
    ensures Join(elems, "/") != "" && !IsAbs(Join(elems, "/"))
    ensures Elements(Join(elems, "/")) == elems
  {
    var p := Join(elems, "/");
    assert elems[0] != "" && '/' !in elems[0];
    assert p[0] == elems[0][0] && p[0] != '/';
    SplitJoin(elems, '/');
    assert Split(p, '/') == elems;
    ReduceReduced([], elems, false);
    assert [] + elems == elems;
  }

  /** With a trailing slash the split yields one more, empty, part, which the
      reduction drops. */
  lemma ElementsOfJoinSlash(elems: seq<string>, s: string)
    requires Reduced(elems, false) && |elems| >= 1 && s == Join(elems, "/") + "/"
    ensures !IsAbs(s) && Elements(s) == elems
  {
    ElementsOfJoin(elems);
    assert s[0] == Join(elems, "/")[0];
    SplitSlashed(elems, s);
    ReduceTrailingEmpty(elems);
  }

  lemma ReduceTrailingEmpty(elems: seq<string>)
    requires Reduced(elems, false)
    ensures Reduce([], elems + [""], false) == elems
  {
    ReduceAppend([], elems, [""], false);
    ReduceReduced([], elems, false);
    assert [] + elems == elems;
  }

  lemma SplitSlashed(elems: seq<string>, s: string)
    requires Reduced(elems, false) && |elems| >= 1 && s == Join(elems, "/") + "/"
    ensures Split(s, '/') == elems + [""]
  {
    var ext := elems + [""];
    JoinAppend(elems, "", "/");
    assert s == Join(ext, "/");
    forall i | 0 <= i < |ext|
      ensures '/' !in ext[i]
    {
      if i < |elems| {
        assert ext[i] == elems[i];
      }
    }
    SplitJoin(ext, '/');
  }

  /** A relative path that does not clean to `.` cleans to its non-empty
      reduced element list written out. */
  lemma CleanRelative(p: string)
    requires !IsAbs(p) && Clean(p) != "."
    ensures Reduced(Elements(p), false) && |Elements(p)| >= 1
    ensures Clean(p) == Join(Elements(p), "/")
  {
    ElementsReduced(p);
  }

  /** The position of the last `c` in `s`. */
  function LastIndex(s: string, c: char): (r: Option<nat>)
    ensures r.None? <==> c !in s
    ensures r.Some? ==> r.value < |s| && s[r.value] == c && c !in s[r.value + 1..]
  {
    if |s| == 0 then None
    else if s[|s| - 1] == c then Some(|s| - 1)
    else LastIndex(s[..|s| - 1], c)
  }

  /** `path.Dir`: everything up to the last slash, cleaned. */
  function Dir(p: string): string {
    match LastIndex(p, '/')
    case None => "."  // `Clean("")`
    case Some(i) => Clean(p[..i + 1])
  }

  /** `path.Base`: the last element after trailing slashes are removed;
      `.` for the empty path and `/` for a path of slashes. */
  function Base(p: string): (r: string)
    ensures r != ""
  {
    if p == "" then "."
    else
      var q := TrimTrailing(p, '/');
      var last := match LastIndex(q, '/') case None => q case Some(i) => q[i + 1..];
      if last == "" then "/" else last
  }

  function TrimTrailing(s: string, c: char): (r: string)
    ensures |r| <= |s| && r == s[..|r|]
    ensures r == [] || r[|r| - 1] != c
  {
    if |s| > 0 && s[|s| - 1] == c then TrimTrailing(s[..|s| - 1], c) else s
  }

  /** `path.Join(a, b)`: empty arguments are ignored and the rest joined
      with a slash and cleaned. */
  function Join2(a: string, b: string): (r: string)
    ensures a != "" || b != "" ==> r == Clean(if a == "" then b else a + "/" + b)
  {
    if a == "" && b == "" then ""
    else if a == "" then Clean(b)
    else Clean(a + "/" + b)
  }

  /** Walking up a clean relative path: `Dir` drops exactly the last
      element, and the parent of a one-element path is `.`. */
  lemma DirOfReduced(elems: seq<string>)
    requires Reduced(elems, false) && |elems| >= 1
    ensures Dir(Join(elems, "/")) == if |elems| == 1 then "." else Join(elems[..|elems| - 1], "/")
  {
    assert Slashless(elems);
    if |elems| == 1 {
      SingleElement(elems);
    } else {
      DirOfMany(elems);
    }
  }

  lemma DirOfMany(elems: seq<string>)
    requires Reduced(elems, false) && Slashless(elems) && |elems| >= 2
    ensures Dir(Join(elems, "/")) == Join(elems[..|elems| - 1], "/")
  {
    var front := elems[..|elems| - 1];
    var p := Join(elems, "/");
    var q := Join(front, "/");
    LastElement(elems);
    DirAt(p, |q|);
    ReducedPrefix(elems, |elems| - 1);
    CleanSlashed(front, p[..|q| + 1]);
  }

  lemma DirAt(p: string, i: nat)
    requires LastIndex(p, '/') == Some(i)
    ensures Dir(p) == Clean(p[..i + 1])
  {
    match LastIndex(p, '/')
    case Some(k) =>
      assert k == i;
  }

  lemma ReducedPrefix(elems: seq<string>, k: nat)
    requires Reduced(elems, false) && k <= |elems|
    ensures Reduced(elems[..k], false)
  {
  }

  /** A one-element clean path has no slash, so its parent is `.`. */
  lemma SingleElement(elems: seq<string>)
    requires Slashless(elems) && |elems| == 1
    ensures Join(elems, "/") == elems[0] && '/' !in elems[0]
    ensures LastIndex(Join(elems, "/"), '/') == None
    ensures Dir(Join(elems, "/")) == "."
    ensures Join(elems, "/") != "" && Join(elems, "/")[|elems[0]| - 1] != '/'
  {
    assert '/' !in elems[0];
  }

  /** A clean path of several elements: its last slash separates the
      parent from the last element. */
  lemma LastElement(elems: seq<string>)
    requires Slashless(elems) && |elems| >= 2
    ensures var q := Join(elems[..|elems| - 1], "/");
      var p := Join(elems, "/");
      p == q + "/" + elems[|elems| - 1] &&
      LastIndex(p, '/') == Some(|q|) &&
      p[..|q| + 1] == q + "/" &&
      p[|q| + 1..] == elems[|elems| - 1] &&
      p[|p| - 1] != '/'
  {
    var n := |elems|;
    var front := elems[..n - 1];
    var last := elems[n - 1];
    assert elems == front + [last];
    JoinAppend(front, last, "/");
    var q := Join(front, "/");
    var p := Join(elems, "/");
    assert p == q + "/" + last;
    assert '/' !in last;
    assert p[|q|] == '/';
    assert p[|q| + 1..] == last;
    LastSlashAt(p, |q|);
    assert p[..|q| + 1] == q + "/";
    assert p[|p| - 1] == last[|last| - 1];
  }

  lemma LastSlashAt(p: string, i: nat)
    requires i < |p| && p[i] == '/' && '/' !in p[i + 1..]
    ensures LastIndex(p, '/') == Some(i)
    decreases |p|
  {
    if p[|p| - 1] != '/' {
      assert p[..|p| - 1][i + 1..] == p[i + 1..|p| - 1];
      LastSlashAt(p[..|p| - 1], i);
    }
  }

  /** `Base` of a clean relative path is its last element. */
  lemma BaseOfReduced(elems: seq<string>)
    requires Slashless(elems) && |elems| >= 1
    ensures Base(Join(elems, "/")) == elems[|elems| - 1]
  {
    if |elems| == 1 {
      BaseOfSingle(elems);
    } else {
      BaseOfMany(elems);
    }
  }

  lemma BaseOfSingle(elems: seq<string>)
    requires Slashless(elems) && |elems| == 1
    ensures Base(Join(elems, "/")) == elems[0]
  {
    var e := elems[0];
    assert Join(elems, "/") == e;
    assert e != "" && '/' !in e;
    assert e[|e| - 1] != '/';
    BaseAt(e, None);
  }

  lemma BaseOfMany(elems: seq<string>)
    requires Slashless(elems) && |elems| >= 2
    ensures Base(Join(elems, "/")) == elems[|elems| - 1]
  {
    var p := Join(elems, "/");
    var q := Join(elems[..|elems| - 1], "/");
    LastElement(elems);
    BaseAt(p, Some(|q|));
  }

  /** `Base` of a path that does not end in a slash: what follows its last
      slash, or all of it. */
  lemma BaseAt(p: string, i: Option<nat>)
    requires p != "" && p[|p| - 1] != '/' && LastIndex(p, '/') == i
    ensures Base(p) == match i case None => p case Some(k) => p[k + 1..]
  {
    assert TrimTrailing(p, '/') == p;
  }

  /** A clean path of several elements is its `Dir`, a slash and its `Base`. */
  lemma DirBase(elems: seq<string>)
    requires Reduced(elems, false) && |elems| >= 2
    ensures Join(elems, "/") == Dir(Join(elems, "/")) + "/" + Base(Join(elems, "/"))
  {
    LastElement(elems);
    BaseOfReduced(elems);
    DirOfReduced(elems);
  }

  /** The element list of a clean relative path starts with `..` exactly
      when the path is `..` or starts with `../`; since `..` only appears
      at the front, any other such path has no `..` element at all. */
  lemma ParentElements(elems: seq<string>)
    requires Reduced(elems, false) && |elems| >= 1
    ensures elems[0] == ".." <==> (Join(elems, "/") == ".." || StartsWith(Join(elems, "/"), "../"))
    ensures elems[0] != ".." ==> forall i :: 0 <= i < |elems| ==> elems[i] != ".."
  {
    if |elems| == 1 {
      SingleElement(elems);
      SingleNotParent(elems[0]);
    } else {
      JoinAt(elems, 1);
      assert elems[..1] == [elems[0]];
      HeadNotParent(elems[0], Join(elems[1..], "/"));
    }
  }

  /** A one-element path starts with `../` never. */
  lemma SingleNotParent(e: string)
    requires '/' !in e
    ensures !StartsWith(e, "../")
  {
    assert |e| >= 3 ==> e[2] != '/';
  }

  /** Two or more elements start with `../` exactly when the first is `..`. */
  lemma HeadNotParent(e: string, rest: string)
    requires e != "" && '/' !in e
    ensures e == ".." ==> StartsWith(e + "/" + rest, "../")
    ensures e != ".." ==> e + "/" + rest != ".." && !StartsWith(e + "/" + rest, "../")
  {
    var p := e + "/" + rest;
    assert p[..|e|] == e && p[|e|] == '/';
    if e == ".." {
      assert p[..3] == "../";
    } else if |e| >= 3 {
      assert p[2] == e[2] != '/';
    } else if |e| == 2 {
      assert p[..2] == e;
    } else {
      assert p[1] == '/';
    }
  }
}
