/** The catalog view the dashboard derives from its state
  * (`frontend/app/dashboard/page.tsx`): which list the tab selects, the
  * search and category filters over it, the category choices and the
  * membership test behind "is assigned". All of it is pure. */
module Catalog {
  import opened Wrappers
  import opened Types

  // ------------------------------------------------------------ sequences

  /** `xs.filter(keep)`: the kept elements in their original order. */
  function Filter<T>(xs: seq<T>, keep: T -> bool): seq<T> {
    if xs == [] then [] else (if keep(xs[0]) then [xs[0]] else []) + Filter(xs[1..], keep)
  }

  /** `a` is `b` with some elements left out and the rest in order. */
  predicate IsSubsequence<T(==)>(a: seq<T>, b: seq<T>)
    decreases |b|
  {
    if a == [] then true
    else if b == [] then false
    else (a[0] == b[0] && IsSubsequence(a[1..], b[1..])) || IsSubsequence(a, b[1..])
  }

  lemma {:induction false} SubsequenceRefl<T>(a: seq<T>)
    ensures IsSubsequence(a, a)
  {
    if a != [] {
      SubsequenceRefl(a[1..]);
    }
  }

  lemma {:induction false} SubsequenceTrans<T>(a: seq<T>, b: seq<T>, c: seq<T>)
    requires IsSubsequence(a, b) && IsSubsequence(b, c)
    ensures IsSubsequence(a, c)
    decreases |c|
  {
    if a != [] {
      if IsSubsequence(b, c[1..]) {
        SubsequenceTrans(a, b, c[1..]);
      } else if a[0] == b[0] && IsSubsequence(a[1..], b[1..]) {
        SubsequenceTrans(a[1..], b[1..], c[1..]);
      } else {
        SubsequenceTrans(a, b[1..], c[1..]);
      }
    }
  }

  lemma {:induction false} FilterIsSubsequence<T>(xs: seq<T>, keep: T -> bool)
    ensures IsSubsequence(Filter(xs, keep), xs)
  {
    if xs != [] {
      FilterIsSubsequence(xs[1..], keep);
      var r := Filter(xs, keep);
      if keep(xs[0]) {
        assert r[0] == xs[0] && r[1..] == Filter(xs[1..], keep);
      } else {
        assert r == Filter(xs[1..], keep);
        if r != [] {
          assert IsSubsequence(r, xs[1..]);
        }
      }
    }
  }

  /** An element survives `filter` exactly when it was there and is kept. */
  lemma {:induction false} FilterMembers<T>(xs: seq<T>, keep: T -> bool)
    ensures forall x :: x in Filter(xs, keep) <==> x in xs && keep(x)
  {
    if xs != [] {
      FilterMembers(xs[1..], keep);
      assert xs == [xs[0]] + xs[1..];
    }
  }

  /** `filter` keeps everything when every element is kept. */
  lemma {:induction false} FilterKeepsAll<T>(xs: seq<T>, keep: T -> bool)
    requires forall x :: x in xs ==> keep(x)
    ensures Filter(xs, keep) == xs
  {
    if xs != [] {
      FilterKeepsAll(xs[1..], keep);
    }
  }

  // ------------------------------------------------------------- strings

  /** `toLowerCase` on the ASCII letters; every other character is kept. */
  function LowerChar(c: char): char {
    if 'A' <= c <= 'Z' then ((c as int) + 32) as char else c
  }

  function Lower(s: string): (r: string)
    ensures |r| == |s| && forall i :: 0 <= i < |s| ==> r[i] == LowerChar(s[i])
  {
    seq(|s|, i requires 0 <= i < |s| => LowerChar(s[i]))
  }

  /** `s.includes(t)`, computed by trying each starting position. */
  function Includes(s: string, t: string): bool {
    (|t| <= |s| && s[..|t|] == t) || (s != [] && Includes(s[1..], t))
  }

  /** `t` occurs in `s` starting at position `i`. */
  predicate OccursAt(s: string, t: string, i: int) {
    0 <= i <= |s| - |t| && s[i..i + |t|] == t
  }

  /** `Includes` finds `t` exactly when `t` occurs at some position of `s`. */
  lemma {:induction false} IncludesIff(s: string, t: string)
    ensures Includes(s, t) <==> exists i :: OccursAt(s, t, i)
  {
    if |t| <= |s| && s[..|t|] == t {
      assert OccursAt(s, t, 0);
    }
    if s != [] {
      IncludesIff(s[1..], t);
      if Includes(s[1..], t) {
        var i :| OccursAt(s[1..], t, i);
        assert s[i + 1..i + 1 + |t|] == s[1..][i..i + |t|];
        assert OccursAt(s, t, i + 1);
      }
      if exists i :: OccursAt(s, t, i) {
        var i :| OccursAt(s, t, i);
        if i > 0 {
          assert s[1..][i - 1..i - 1 + |t|] == s[i..i + |t|];
          assert OccursAt(s[1..], t, i - 1);
        } else {
          assert s[..|t|] == t;
        }
      }
    } else if exists i :: OccursAt(s, t, i) {
      var i :| OccursAt(s, t, i);
      assert i == 0 && |t| == 0;
      assert s[..|t|] == t;
    }
  }

  // ---------------------------------------------------------------- view

  /** `activeTab === "all" ? products : myProducts`: every other tab value
    * selects the user's own list. */
  function SourceFor(activeTab: string, products: seq<Product>, myProducts: seq<Product>): seq<Product> {
    if activeTab == "all" then products else myProducts
  }

  /** The search test, with the term already lower-cased. */
  predicate MatchesTerm(p: Product, term: string) {
    Includes(Lower(p.name), term) || Includes(Lower(p.dataCategory), term)
  }

  /** `if (searchTerm)`: an empty term filters nothing. */
  function SearchFilter(ps: seq<Product>, searchTerm: string): seq<Product> {
    if searchTerm == "" then ps
    else Filter(ps, (p: Product) => MatchesTerm(p, Lower(searchTerm)))
  }

  /** `if (selectedCategory)`: null and the empty string filter nothing. */
  predicate CategorySelected(selectedCategory: Option<string>) {
    selectedCategory.Some? && selectedCategory.value != ""
  }

  function CategoryFilter(ps: seq<Product>, selectedCategory: Option<string>): seq<Product> {
    if CategorySelected(selectedCategory)
    then Filter(ps, (p: Product) => p.dataCategory == selectedCategory.value)
    else ps
  }

  /** The value the filter effect stores in `filteredProducts`. */
  function View(products: seq<Product>, myProducts: seq<Product>, activeTab: string,
                searchTerm: string, selectedCategory: Option<string>): seq<Product> {
    CategoryFilter(SearchFilter(SourceFor(activeTab, products, myProducts), searchTerm), selectedCategory)
  }

  /** What a product must satisfy to appear in the view. */
  predicate Selected(p: Product, searchTerm: string, selectedCategory: Option<string>) {
    && (searchTerm != "" ==> MatchesTerm(p, Lower(searchTerm)))
    && (CategorySelected(selectedCategory) ==> p.dataCategory == selectedCategory.value)
  }

  /** The view keeps the order of the tab's list and invents nothing. */
  lemma ViewIsSubsequence(products: seq<Product>, myProducts: seq<Product>, activeTab: string,
                          searchTerm: string, selectedCategory: Option<string>)
    ensures IsSubsequence(View(products, myProducts, activeTab, searchTerm, selectedCategory),
                          SourceFor(activeTab, products, myProducts))
  {
    var src := SourceFor(activeTab, products, myProducts);
    var searched := SearchFilter(src, searchTerm);
    if searchTerm == "" {
      SubsequenceRefl(src);
    } else {
      FilterIsSubsequence(src, (p: Product) => MatchesTerm(p, Lower(searchTerm)));
    }
    if CategorySelected(selectedCategory) {
      FilterIsSubsequence(searched, (p: Product) => p.dataCategory == selectedCategory.value);
    } else {
      SubsequenceRefl(searched);
    }
    SubsequenceTrans(View(products, myProducts, activeTab, searchTerm, selectedCategory), searched, src);
  }

  /** A product is in the view exactly when it is in the tab's list, its
    * lower-cased name or category contains the lower-cased term (when there
    * is a term), and its category equals the selected one, letter case
    * included (when one is selected). */
  lemma ViewMembers(products: seq<Product>, myProducts: seq<Product>, activeTab: string,
                    searchTerm: string, selectedCategory: Option<string>)
    ensures forall p :: p in View(products, myProducts, activeTab, searchTerm, selectedCategory)
                    <==> p in SourceFor(activeTab, products, myProducts) && Selected(p, searchTerm, selectedCategory)
  {
    var src := SourceFor(activeTab, products, myProducts);
    var searched := SearchFilter(src, searchTerm);
    if searchTerm != "" {
      FilterMembers(src, (p: Product) => MatchesTerm(p, Lower(searchTerm)));
    }
    if CategorySelected(selectedCategory) {
      FilterMembers(searched, (p: Product) => p.dataCategory == selectedCategory.value);
    }
  }

  /** An empty term and no category give the tab's list unchanged. */
  lemma ViewIdentity(products: seq<Product>, myProducts: seq<Product>, activeTab: string,
                     selectedCategory: Option<string>)
    requires !CategorySelected(selectedCategory)
    ensures View(products, myProducts, activeTab, "", selectedCategory) == SourceFor(activeTab, products, myProducts)
  {
  }

  /** The category filter keeps exactly the products of that category, in
    * order; the view is that filter applied to the searched list. */
  lemma CategoryFilterExact(ps: seq<Product>, category: string)
    requires category != ""
    ensures forall p :: p in CategoryFilter(ps, Some(category)) <==> p in ps && p.dataCategory == category
  {
    FilterMembers(ps, (p: Product) => p.dataCategory == category);
  }

  /** Searching ignores letter case; choosing a category does not: a
    * "Financial" product is found by the term "financial" yet dropped by
    * the category "financial". */
  lemma CategoryIsCaseSensitive(p: Product)
    requires p.dataCategory == "Financial"
    ensures p in SearchFilter([p], "financial")
    ensures CategoryFilter([p], Some("financial")) == []
  {
    var lowered := Lower(p.dataCategory);
    assert lowered == "financial";
    assert Lower("financial") == "financial";
    assert Includes(lowered, "financial");
    assert MatchesTerm(p, Lower("financial"));
    FilterMembers([p], (q: Product) => MatchesTerm(q, Lower("financial")));
    assert [p][1..] == [];
    assert p.dataCategory[0] != "financial"[0];
    assert CategoryFilter([p], Some("financial")) == Filter([p][1..], (q: Product) => q.dataCategory == "financial");
  }

  // ---------------------------------------------------------- categories

  predicate NoDuplicates<T(==)>(s: seq<T>) {
    forall i, j :: 0 <= i < j < |s| ==> s[i] != s[j]
  }

  /** `[...new Set(xs)]`: each value once, in order of first appearance. */
  function Distinct(xs: seq<string>): (r: seq<string>)
    ensures NoDuplicates(r)
    ensures forall x :: x in r <==> x in xs
  {
    if xs == [] then []
    else
      var rest := Distinct(xs[..|xs| - 1]);
      var last := xs[|xs| - 1];
      assert xs == xs[..|xs| - 1] + [last];
      if last in rest then rest else rest + [last]
  }

  lemma {:induction false} DistinctIsSubsequence(xs: seq<string>)
    ensures IsSubsequence(Distinct(xs), xs)
  {
    if xs != [] {
      var init := xs[..|xs| - 1];
      DistinctIsSubsequence(init);
      var rest := Distinct(init);
      SubsequenceAppend(rest, init, xs[|xs| - 1]);
      assert init + [xs[|xs| - 1]] == xs;
    }
  }

  /** The index of the first occurrence of `x` in `xs`. */
  function FirstAppearance(xs: seq<string>, x: string): (i: nat)
    requires x in xs
    ensures i < |xs| && xs[i] == x && x !in xs[..i]
  {
    if xs[0] == x then 0 else 1 + FirstAppearance(xs[1..], x)
  }

  /** An index holding `x` with no `x` before it is the first occurrence. */
  lemma {:induction false} FirstAppearanceAt(xs: seq<string>, x: string, k: nat)
    requires k < |xs| && xs[k] == x && x !in xs[..k]
    ensures FirstAppearance(xs, x) == k
  {
    if k > 0 {
      assert xs[..k][0] == xs[0];
      assert xs[1..][..k - 1] == xs[..k][1..];
      FirstAppearanceAt(xs[1..], x, k - 1);
    }
  }

  /** Appending a value leaves the first occurrence of an earlier one where
    * it was. */
  lemma FirstAppearanceAppend(init: seq<string>, last: string, x: string)
    requires x in init
    ensures FirstAppearance(init + [last], x) == FirstAppearance(init, x)
  {
    var j := FirstAppearance(init, x);
    assert (init + [last])[..j] == init[..j];
    FirstAppearanceAt(init + [last], x, j);
  }

  /** `[...new Set(xs)]` lists the values in the order in which they first
    * appear in `xs`. */
  lemma {:induction false} DistinctFirstAppearance(xs: seq<string>)
    ensures forall i, j :: 0 <= i < j < |Distinct(xs)| ==>
              FirstAppearance(xs, Distinct(xs)[i]) < FirstAppearance(xs, Distinct(xs)[j])
  {
    if xs != [] {
      var init := xs[..|xs| - 1];
      var last := xs[|xs| - 1];
      assert xs == init + [last];
      DistinctFirstAppearance(init);
      var rest := Distinct(init);
      var d := Distinct(xs);
      forall k | 0 <= k < |rest|
        ensures FirstAppearance(xs, rest[k]) == FirstAppearance(init, rest[k])
      {
        assert rest[k] in rest;
        FirstAppearanceAppend(init, last, rest[k]);
      }
      if last !in rest {
        assert d == rest + [last];
        assert last !in init;
        assert xs[..|init|] == init;
        FirstAppearanceAt(xs, last, |init|);
        forall i, j | 0 <= i < j < |d|
          ensures FirstAppearance(xs, d[i]) < FirstAppearance(xs, d[j])
        {
          assert d[i] == rest[i];
          if j == |rest| {
            assert d[j] == last;
          } else {
            assert d[j] == rest[j];
          }
        }
      }
    }
  }

  lemma {:induction false} SubsequenceAppend<T>(a: seq<T>, b: seq<T>, x: T)
    requires IsSubsequence(a, b)
    ensures IsSubsequence(a, b + [x]) && IsSubsequence(a + [x], b + [x])
    decreases |b|
  {
    if a == [] {
      assert a + [x] == [x];
      SubsequenceRefl([x]);
      if b != [] {
        SubsequenceDrop([x], b);
      }
    } else {
      assert b != [];
      assert (b + [x])[1..] == b[1..] + [x];
      assert (a + [x])[1..] == a[1..] + [x];
      if a[0] == b[0] && IsSubsequence(a[1..], b[1..]) {
        SubsequenceAppend(a[1..], b[1..], x);
      } else {
        SubsequenceAppend(a, b[1..], x);
      }
    }
  }

  /** Anything is a subsequence of itself with elements put in front. */
  lemma {:induction false} SubsequenceDrop<T>(a: seq<T>, b: seq<T>)
    requires a != []
    ensures IsSubsequence(a, b + a)
    decreases |b|
  {
    if b == [] {
      assert b + a == a;
      SubsequenceRefl(a);
    } else {
      assert (b + a)[1..] == b[1..] + a;
      SubsequenceDrop(a, b[1..]);
    }
  }

  function CategoriesOf(ps: seq<Product>): (r: seq<string>)
    ensures |r| == |ps| && forall i :: 0 <= i < |ps| ==> r[i] == ps[i].dataCategory
  {
    seq(|ps|, i requires 0 <= i < |ps| => ps[i].dataCategory)
  }

  /** The category choices: every category of `products` once, nothing
    * else, in order of first appearance. */
  function Categories(products: seq<Product>): (r: seq<string>)
    ensures NoDuplicates(r)
    ensures forall c :: c in r <==> exists p :: p in products && p.dataCategory == c
  {
    var cats := CategoriesOf(products);
    assert forall c :: c in cats <==> exists p :: p in products && p.dataCategory == c by {
      forall c
        ensures c in cats <==> exists p :: p in products && p.dataCategory == c
      {
        if c in cats {
          var i :| 0 <= i < |cats| && cats[i] == c;
          assert products[i] in products;
        }
        if exists p :: p in products && p.dataCategory == c {
          var p :| p in products && p.dataCategory == c;
          var i :| 0 <= i < |products| && products[i] == p;
          assert cats[i] == c;
        }
      }
    }
    Distinct(cats)
  }

  // ---------------------------------------------------------- membership

  /** `myProducts.some(p => p.id === productId)`. */
  function IsAssigned(myProducts: seq<Product>, productId: int): (r: bool)
    ensures r <==> exists p :: p in myProducts && p.id == productId
  {
    if myProducts == [] then false
    else myProducts[0].id == productId || IsAssigned(myProducts[1..], productId)
  }

  /** Position of the first product with that id; `|products|` when none. */
  function FirstIndexOf(products: seq<Product>, productId: int): (k: nat)
    ensures k <= |products|
    ensures k < |products| ==> products[k].id == productId
    ensures forall j :: 0 <= j < k ==> products[j].id != productId
  {
    if products == [] then 0
    else if products[0].id == productId then 0
    else 1 + FirstIndexOf(products[1..], productId)
  }

  /** `products.find(p => p.id === productId)`: the first product with that
    * id, or `undefined` (None). */
  function FindById(products: seq<Product>, productId: int): (r: Option<Product>)
    ensures r.Some? <==> exists p :: p in products && p.id == productId
    ensures r.Some? ==> r.value in products && r.value.id == productId
    ensures r.Some? ==> r.value == products[FirstIndexOf(products, productId)]
  {
    var k := FirstIndexOf(products, productId);
    if k < |products| then Some(products[k]) else None
  }
}
