/**
 * The variables every template sees (`global_vars`): `posts`, the records
 * whose template is the post template, sorted by `date` with Python's
 * stable sort, and `pages`, the records whose template is the page
 * template, in load order.
 */
module GlobalContext {
  import opened Base
  import opened Strings
  import opened Content
  import opened Loader

  /**
   * Python's `a <= b` on two front-matter values: dates by day, texts by
   * code point. Between a date and a text Python raises TypeError; that
   * case never reaches the sort (see `GlobalVars`), and dates are put
   * first here only so that the order is total.
   */
  predicate ValueLe(a: Value, b: Value)
  {
    if a.Date? && b.Date? then a.day <= b.day
    else if a.Text? && b.Text? then LexLe(a.s, b.s)
    else a.Date?
  }

  lemma ValueLeTotal(a: Value, b: Value)
    ensures ValueLe(a, b) || ValueLe(b, a)
  {
    if a.Text? && b.Text? { LexLeTotal(a.s, b.s); }
  }

  lemma ValueLeTransitive(a: Value, b: Value, c: Value)
    requires ValueLe(a, b) && ValueLe(b, c)
    ensures ValueLe(a, c)
  {
    if a.Text? && b.Text? && c.Text? { LexLeTransitive(a.s, b.s, c.s); }
  }

  lemma ValueLeAntisymmetric(a: Value, b: Value)
    requires ValueLe(a, b) && ValueLe(b, a)
    ensures a == b
  {
    if a.Text? && b.Text? { LexLeAntisymmetric(a.s, b.s); }
  }

  /** Every record has a `date`. */
  predicate Dated(s: seq<Record>)
  {
    forall r <- s :: "date" in r
  }

  /** Non-decreasing by `date`. */
  predicate SortedByDate(s: seq<Record>)
    requires Dated(s)
  {
    forall i, j :: 0 <= i < j < |s| ==> ValueLe(s[i]["date"], s[j]["date"])
  }

  /** The records of `s` whose `date` is `v`, in their order in `s`. */
  function WithDate(s: seq<Record>, v: Value): (sel: seq<Record>)
    requires Dated(s)
  {
    if s == [] then []
    else WithDate(s[..|s| - 1], v) + (if s[|s| - 1]["date"] == v then [s[|s| - 1]] else [])
  }

  /**
   * One step of a stable insertion: `x` goes after every record whose date
   * is not later than its own.
   */
  function Insert(s: seq<Record>, x: Record): (r: seq<Record>)
    requires Dated(s) && "date" in x
    ensures Dated(r)
    ensures |r| == |s| + 1
  {
    if s == [] then [x]
    else if ValueLe(s[|s| - 1]["date"], x["date"]) then s + [x]
    else
      var last := s[|s| - 1];
      assert s == s[..|s| - 1] + [last];
      Insert(s[..|s| - 1], x) + [last]
  }

  /** The posts in the order Python's stable `sort(key=date)` leaves them. */
  function SortByDate(s: seq<Record>): (r: seq<Record>)
    requires Dated(s)
    ensures Dated(r)
    ensures |r| == |s|
  {
    if s == [] then []
    else
      assert s == s[..|s| - 1] + [s[|s| - 1]];
      Insert(SortByDate(s[..|s| - 1]), s[|s| - 1])
  }

  /** Inserting adds exactly `x`: the result is a permutation of `s` and `x`. */
  lemma {:induction false} InsertPermutes(s: seq<Record>, x: Record)
    requires Dated(s) && "date" in x
    ensures multiset(Insert(s, x)) == multiset(s) + multiset{x}
  {
    if s != [] && !ValueLe(s[|s| - 1]["date"], x["date"]) {
      var init := s[..|s| - 1];
      InsertPermutes(init, x);
      assert s == init + [s[|s| - 1]];
    }
  }

  /** The sorted posts are a permutation of the posts. */
  lemma {:induction false} SortByDatePermutes(s: seq<Record>)
    requires Dated(s)
    ensures multiset(SortByDate(s)) == multiset(s)
  {
    if s != [] {
      var init := s[..|s| - 1];
      SortByDatePermutes(init);
      InsertPermutes(SortByDate(init), s[|s| - 1]);
      assert s == init + [s[|s| - 1]];
    }
  }

  lemma {:induction false} InsertSorted(s: seq<Record>, x: Record)
    requires Dated(s) && "date" in x && SortedByDate(s)
    ensures SortedByDate(Insert(s, x))
  {
    if s != [] {
      var last := s[|s| - 1];
      if ValueLe(last["date"], x["date"]) {
        AppendSorted(s, x);
      } else {
        var init := s[..|s| - 1];
        InsertSorted(init, x);
        InsertPermutes(init, x);
        InsertBeforeLater(s, x, Insert(init, x));
      }
    }
  }

  /** A record not earlier than the last of a sorted sequence extends it sorted. */
  lemma AppendSorted(s: seq<Record>, x: Record)
    requires Dated(s) && "date" in x && SortedByDate(s)
    requires s != [] ==> ValueLe(s[|s| - 1]["date"], x["date"])
    ensures Dated(s + [x]) && SortedByDate(s + [x])
  {
    forall i, j | 0 <= i < j < |s| + 1
      ensures ValueLe((s + [x])[i]["date"], (s + [x])[j]["date"])
    {
      if j == |s| && i < |s| - 1 {
        ValueLeTransitive(s[i]["date"], s[|s| - 1]["date"], x["date"]);
      }
    }
  }

  /**
   * The step of `InsertSorted` where `x` goes before a later `last`: `last`
   * is not earlier than any record of `init` nor than `x`.
   */
  lemma InsertBeforeLater(s: seq<Record>, x: Record, t: seq<Record>)
    requires Dated(s) && "date" in x && SortedByDate(s) && s != []
    requires !ValueLe(s[|s| - 1]["date"], x["date"])
    requires Dated(t) && SortedByDate(t)
    requires multiset(t) == multiset(s[..|s| - 1]) + multiset{x}
    ensures SortedByDate(t + [s[|s| - 1]])
  {
    var last := s[|s| - 1];
    var init := s[..|s| - 1];
    forall i, j | 0 <= i < j < |t| + 1
      ensures ValueLe((t + [last])[i]["date"], (t + [last])[j]["date"])
    {
      if j == |t| {
        var r := t[i];
        assert r in multiset(t);
        if r == x {
          ValueLeTotal(x["date"], last["date"]);
        } else {
          assert r in init;
          var k :| 0 <= k < |init| && init[k] == r;
          assert s[k] == r;
        }
      }
    }
  }

  /** The sorted posts are non-decreasing by date. */
  lemma {:induction false} SortByDateSorted(s: seq<Record>)
    requires Dated(s)
    ensures SortedByDate(SortByDate(s))
  {
    if s != [] {
      SortByDateSorted(s[..|s| - 1]);
      InsertSorted(SortByDate(s[..|s| - 1]), s[|s| - 1]);
    }
  }

  lemma {:induction false} WithDateAppend(a: seq<Record>, b: seq<Record>, v: Value)
    requires Dated(a) && Dated(b)
    ensures WithDate(a + b, v) == WithDate(a, v) + WithDate(b, v)
    decreases |b|
  {
    if b == [] {
      assert a + b == a;
    } else {
      var b' := b[..|b| - 1];
      assert (a + b)[..|a + b| - 1] == a + b';
      WithDateAppend(a, b', v);
    }
  }

  /** Inserting `x` adds it at the end of the records that share its date, and nowhere else. */
  lemma {:induction false} InsertStable(s: seq<Record>, x: Record, v: Value)
    requires Dated(s) && "date" in x
    ensures WithDate(Insert(s, x), v) == WithDate(s, v) + (if x["date"] == v then [x] else [])
  {
    if s != [] {
      var last := s[|s| - 1];
      var init := s[..|s| - 1];
      if ValueLe(last["date"], x["date"]) {
        WithDateAppend(s, [x], v);
        var one: seq<Record> := [x];
        assert one[..0] == [];
      } else {
        InsertStable(init, x, v);
        InsertPastLater(s, x, v);
      }
    }
  }

  /** The step of `InsertStable` where `x` moves left past a later `last`. */
  lemma InsertPastLater(s: seq<Record>, x: Record, v: Value)
    requires Dated(s) && "date" in x && s != []
    requires !ValueLe(s[|s| - 1]["date"], x["date"])
    requires WithDate(Insert(s[..|s| - 1], x), v) == WithDate(s[..|s| - 1], v) + (if x["date"] == v then [x] else [])
    ensures WithDate(Insert(s, x), v) == WithDate(s, v) + (if x["date"] == v then [x] else [])
  {
    var last := s[|s| - 1];
    var init := s[..|s| - 1];
    assert Insert(s, x) == Insert(init, x) + [last];
    WithDateAppend(Insert(init, x), [last], v);
    var one: seq<Record> := [last];
    assert one[..0] == [];
    ValueLeTotal(x["date"], x["date"]);
    assert x["date"] == v ==> last["date"] != v;
  }

  /** Records with equal dates keep their relative order: the sort is stable. */
  lemma {:induction false} SortByDateStable(s: seq<Record>, v: Value)
    requires Dated(s)
    ensures WithDate(SortByDate(s), v) == WithDate(s, v)
  {
    if s != [] {
      SortByDateStable(s[..|s| - 1], v);
      InsertStable(SortByDate(s[..|s| - 1]), s[|s| - 1], v);
    }
  }

  /**
   * `list.sort(key=lambda post: post["date"])` in place, as a stable
   * insertion sort: each record moves left past the records whose date is
   * strictly later than its own.
   */
  method SortPostsByDate(a: array<Record>)
    requires Dated(a[..])
    modifies a
    ensures a[..] == SortByDate(old(a[..]))
  {
    ghost var orig := a[..];
    var i := 0;
    while i < a.Length
      invariant 0 <= i <= a.Length
      invariant a[..i] == SortByDate(orig[..i])
      invariant a[i..] == orig[i..]
    {
      SortByDateStep(orig, i);
      assert a[i] == orig[i];
      InsertLast(a, i);
      assert a[i + 1..] == orig[i + 1..];
      i := i + 1;
    }
    assert orig[..a.Length] == orig;
  }

  /** One pass of the insertion sort: `a[i]` moves left into the sorted prefix `a[..i]`. */
  method InsertLast(a: array<Record>, i: int)
    requires 0 <= i < a.Length
    requires Dated(a[..i]) && "date" in a[i]
    modifies a
    ensures a[..i + 1] == Insert(old(a[..i]), old(a[i]))
    ensures forall k :: i < k < a.Length ==> a[k] == old(a[k])
  {
    ghost var sorted := a[..i];
    var x := a[i];
    var j := i;
    while j > 0 && Later(a[j - 1], x)
      invariant 0 <= j <= i
      invariant forall k :: 0 <= k < j ==> a[k] == sorted[k]
      invariant forall k :: j < k <= i ==> a[k] == sorted[k - 1]
      invariant forall k :: i < k < a.Length ==> a[k] == old(a[k])
      invariant forall k :: j <= k < i ==> Later(sorted[k], x)
    {
      a[j] := a[j - 1];
      j := j - 1;
    }
    a[j] := x;
    InsertAt(sorted, x, j);
    Placed(a[..i + 1], sorted, x, j);
  }

  /** `r` has a date strictly later than that of `x`. */
  predicate Later(r: Record, x: Record)
  {
    "date" in r && "date" in x && !ValueLe(r["date"], x["date"])
  }

  /** A sequence that holds `s` with `x` put at position `j`. */
  lemma Placed<T>(t: seq<T>, s: seq<T>, x: T, j: nat)
    requires |t| == |s| + 1 && j <= |s|
    requires forall k :: 0 <= k < j ==> t[k] == s[k]
    requires t[j] == x
    requires forall k :: j < k < |t| ==> t[k] == s[k - 1]
    ensures t == s[..j] + [x] + s[j..]
  {
  }

  /** Sorting one more record is inserting it into the sorted prefix. */
  lemma SortByDateStep(s: seq<Record>, i: nat)
    requires Dated(s) && i < |s|
    ensures Dated(s[..i]) && "date" in s[i]
    ensures SortByDate(s[..i + 1]) == Insert(SortByDate(s[..i]), s[i])
  {
    assert s[i] in s;
    assert s[..i + 1][..i] == s[..i];
  }

  /**
   * `x` lands at position `j` when the record before `j` is not later than
   * `x` and every record from `j` on is strictly later.
   */
  lemma {:induction false} InsertAt(s: seq<Record>, x: Record, j: nat)
    requires Dated(s) && "date" in x && j <= |s|
    requires j > 0 ==> ValueLe(s[j - 1]["date"], x["date"])
    requires forall k :: j <= k < |s| ==> Later(s[k], x)
    ensures Insert(s, x) == s[..j] + [x] + s[j..]
    decreases |s|
  {
    if j == |s| {
      if s != [] {
        assert s[..j] == s && s[j..] == [];
      }
    } else {
      var init := s[..|s| - 1];
      var last := s[|s| - 1];
      assert Later(last, x);
      assert Insert(s, x) == Insert(init, x) + [last];
      InsertAt(init, x, j);
      assert init[..j] == s[..j];
      assert s[j..] == init[j..] + [last];
    }
  }

  /** A record of the loaded content whose template is `name`. */
  predicate HasTemplate(r: Record, name: string)
  {
    "template" in r && r["template"] == Text(name)
  }

  /** `[c for c in content if c["template"] == name]`. */
  function WithTemplate(content: seq<Record>, name: string): (sel: seq<Record>)
    ensures forall r <- sel :: r in content && HasTemplate(r, name)
    ensures forall r <- content :: HasTemplate(r, name) ==> r in sel
    ensures |sel| <= |content|
  {
    if content == [] then []
    else
      var last := content[|content| - 1];
      assert content == content[..|content| - 1] + [last];
      WithTemplate(content[..|content| - 1], name) + (if HasTemplate(last, name) then [last] else [])
  }

  /** Selecting by template keeps load order: it distributes over concatenation. */
  lemma {:induction false} WithTemplateAppend(a: seq<Record>, b: seq<Record>, name: string)
    ensures WithTemplate(a + b, name) == WithTemplate(a, name) + WithTemplate(b, name)
    decreases |b|
  {
    if b == [] {
      assert a + b == a;
    } else {
      var b' := b[..|b| - 1];
      assert (a + b)[..|a + b| - 1] == a + b';
      WithTemplateAppend(a, b', name);
    }
  }

  /**
   * Every loaded record has exactly one of the three templates, so the
   * posts, the pages and the index records together are the content: no
   * record is in two lists and none is lost.
   */
  lemma {:induction false} TemplatesPartition(content: seq<Record>)
    requires forall r <- content :: Loaded(r)
    ensures |WithTemplate(content, PostTemplate)| + |WithTemplate(content, PageTemplate)|
      + |WithTemplate(content, IndexTemplate)| == |content|
  {
    if content != [] {
      var init := content[..|content| - 1];
      var last := content[|content| - 1];
      assert Loaded(last);
      assert forall r <- init :: r in content;
      TemplatesPartition(init);
    }
  }

  /** The records a template sees as `posts` and `pages`. */
  datatype Globals = Globals(posts: seq<Record>, pages: seq<Record>)

  /** The post records are dated: the post template requires `date`. */
  lemma PostsDated(content: seq<Record>)
    requires forall r <- content :: Loaded(r)
    ensures Dated(WithTemplate(content, PostTemplate))
  {
    forall r <- WithTemplate(content, PostTemplate) ensures "date" in r {
      assert Loaded(r);
      assert "date" in RequiredFields(r["template"]).value;
    }
  }

  /** The dates can be compared pairwise: all dates or all texts. */
  predicate DatesComparable(posts: seq<Record>)
    requires Dated(posts)
  {
    (forall r: Record <- posts :: r["date"].Date?) || (forall r: Record <- posts :: r["date"].Text?)
  }

  /**
   * `global_vars`, or the TypeError that sorting posts whose dates mix
   * dates and texts raises.
   */
  function GlobalVars(content: seq<Record>): Result<Globals, BuildError>
    requires forall r <- content :: Loaded(r)
  {
    var posts := WithTemplate(content, PostTemplate);
    PostsDated(content);
    if !DatesComparable(posts) then Err(UncomparableDates)
    else Ok(Globals(SortByDate(posts), WithTemplate(content, PageTemplate)))
  }

  /**
   * Builds `global_vars`: selects the posts and the pages, then sorts the
   * posts in place.
   */
  method BuildGlobals(content: seq<Record>) returns (r: Result<Globals, BuildError>)
    requires forall c <- content :: Loaded(c)
    ensures r == GlobalVars(content)
  {
    var posts := WithTemplate(content, PostTemplate);
    var pages := WithTemplate(content, PageTemplate);
    PostsDated(content);
    if !DatesComparable(posts) {
      return Err(UncomparableDates);
    }
    var a := new Record[|posts|](i requires 0 <= i < |posts| => posts[i]);
    assert a[..] == posts;
    SortPostsByDate(a);
    r := Ok(Globals(a[..], pages));
  }

  /**
   * What `posts` and `pages` hold: exactly the post records, non-decreasing
   * by date with equal dates in load order, and exactly the page records in
   * load order; an index record is in neither.
   */
  lemma GlobalVarsContents(content: seq<Record>, v: Value)
    requires forall r <- content :: Loaded(r)
    requires GlobalVars(content).Ok?
    ensures var g := GlobalVars(content).value;
      && Dated(g.posts) && SortedByDate(g.posts)
      && multiset(g.posts) == multiset(WithTemplate(content, PostTemplate))
      && WithDate(g.posts, v) == WithDate(WithTemplate(content, PostTemplate), v)
      && g.pages == WithTemplate(content, PageTemplate)
      && (forall r <- g.posts + g.pages :: !HasTemplate(r, IndexTemplate))
  {
    var posts := WithTemplate(content, PostTemplate);
    PostsDated(content);
    SortByDateSorted(posts);
    SortByDateStable(posts, v);
    SortByDatePermutes(posts);
    var g := GlobalVars(content).value;
    forall r <- g.posts ensures r in posts {
      assert r in multiset(g.posts);
    }
  }
}
