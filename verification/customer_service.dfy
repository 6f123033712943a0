/** `CustomerService`: the customer listing with its name filter and its
    `customersPage` cache, and customer creation, which empties that cache. */
module CustomerService {
  import opened Wrappers
  import opened Text
  import opened Entities
  import opened Views
  import opened Repositories

  /** The two repository queries a listing can run. */
  datatype CustomerQuery =
    | FindAll(pageable: Pageable)
    | FindByNameContainingIgnoreCase(name: string, pageable: Pageable)

  /** The name as the listing uses it: trimmed, or null when absent. */
  function TrimmedName(name: Option<string>): (r: Option<string>)
    ensures r.None? <==> name.None?
    ensures r.Some? ==> r.value == Trim(name.value)
    ensures r.Some? ==> Edged(r.value)
    ensures r.Some? ==> (r.value == [] <==> AllTrimmed(name.value))
  {
    match name
    case None => None
    case Some(s) => Some(Trim(s))
  }

  /** The query a listing runs: the unfiltered scan for a null or blank trimmed
      name, otherwise the case-insensitive substring query on the trimmed name. */
  function ChooseQuery(name: Option<string>, pageable: Pageable): (q: CustomerQuery)
    ensures q.pageable == pageable
    ensures q.FindAll? <==> name.None? || IsBlank(Trim(name.value))
    ensures q.FindByNameContainingIgnoreCase? ==> q.name == Trim(name.value) && q.name != []
  {
    var trimmed := TrimmedName(name);
    if trimmed.None? || IsBlank(trimmed.value) then FindAll(pageable)
    else FindByNameContainingIgnoreCase(trimmed.value, pageable)
  }

  /** The name part of the cache key: the trimmed name, or empty for null. */
  function KeyName(name: Option<string>): (r: string)
    ensures name.None? ==> r == []
    ensures name.Some? ==> r == Trim(name.value)
  {
    if name.None? then "" else Trim(name.value)
  }

  /** The `customersPage` cache key. */
  function CacheKey(name: Option<string>, pageable: Pageable): string {
    "name=" + KeyName(name) + "|" + "p=" + NatToString(pageable.pageNumber)
      + "|" + "s=" + NatToString(pageable.pageSize) + "|" + "sort=" + SortToString(pageable.sort)
  }

  predicate NoBar(s: string) {
    forall i :: 0 <= i < |s| ==> s[i] != '|'
  }

  /** A string that ends in a bar-free part after a bar splits there in one way only. */
  lemma SplitAtLastBar(a: string, b: string, c: string, d: string)
    requires a + "|" + b == c + "|" + d
    requires NoBar(b) && NoBar(d)
    ensures a == c && b == d
  {
    var s := a + "|" + b;
    assert s[|a|] == '|';
    assert s[|c|] == '|';
    if |a| < |c| {
      assert false;
    } else if |c| < |a| {
      assert false;
    }
    assert a == s[..|a|] && c == s[..|c|];
    assert b == s[|a| + 1..] && d == s[|c| + 1..];
  }

  lemma NoBarConcat(a: string, b: string)
    requires NoBar(a) && NoBar(b)
    ensures NoBar(a + b)
  {
    forall i | 0 <= i < |a + b| ensures (a + b)[i] != '|' {
      if i < |a| {
        assert (a + b)[i] == a[i];
      } else {
        assert (a + b)[i] == b[i - |a|];
      }
    }
  }

  lemma DigitsNoBar(n: nat)
    ensures NoBar(NatToString(n))
  {
    var r := NatToString(n);
    forall i | 0 <= i < |r| ensures r[i] != '|' {
      assert IsDigit(r[i]);
    }
  }

  /** The last field of a key, `|tag` followed by a bar-free value, is cut off
      in one way only. */
  lemma PeelField(x1: string, tag: string, y1: string, x2: string, y2: string)
    requires x1 + "|" + tag + y1 == x2 + "|" + tag + y2
    requires NoBar(tag) && NoBar(y1) && NoBar(y2)
    ensures x1 == x2 && y1 == y2
  {
    assert x1 + "|" + tag + y1 == x1 + "|" + (tag + y1);
    assert x2 + "|" + tag + y2 == x2 + "|" + (tag + y2);
    NoBarConcat(tag, y1);
    NoBarConcat(tag, y2);
    SplitAtLastBar(x1, tag + y1, x2, tag + y2);
    assert y1 == (tag + y1)[|tag|..];
    assert y2 == (tag + y2)[|tag|..];
  }

  /** A key's four fields are recovered from the whole key. */
  lemma KeyFieldsEqual(c1: string, pn1: string, ps1: string, t1: string,
                       c2: string, pn2: string, ps2: string, t2: string)
    requires c1 + "|" + "p=" + pn1 + "|" + "s=" + ps1 + "|" + "sort=" + t1
          == c2 + "|" + "p=" + pn2 + "|" + "s=" + ps2 + "|" + "sort=" + t2
    requires NoBar(pn1) && NoBar(ps1) && NoBar(t1) && NoBar(pn2) && NoBar(ps2) && NoBar(t2)
    ensures c1 == c2 && pn1 == pn2 && ps1 == ps2 && t1 == t2
  {
    assert NoBar("sort=") && NoBar("s=") && NoBar("p=");
    var b1, b2 := c1 + "|" + "p=" + pn1, c2 + "|" + "p=" + pn2;
    var a1, a2 := b1 + "|" + "s=" + ps1, b2 + "|" + "s=" + ps2;
    PeelField(a1, "sort=", t1, a2, t2);
    PeelField(b1, "s=", ps1, b2, ps2);
    PeelField(c1, "p=", pn1, c2, pn2);
  }

  /** The cache key determines the trimmed-or-empty name and the whole page request. */
  lemma CacheKeyInjective(n1: Option<string>, p1: Pageable, n2: Option<string>, p2: Pageable)
    requires CacheKey(n1, p1) == CacheKey(n2, p2)
    ensures KeyName(n1) == KeyName(n2) && p1 == p2
  {
    var c1, c2 := "name=" + KeyName(n1), "name=" + KeyName(n2);
    DigitsNoBar(p1.pageNumber);
    DigitsNoBar(p2.pageNumber);
    DigitsNoBar(p1.pageSize);
    DigitsNoBar(p2.pageSize);
    KeyFieldsEqual(c1, NatToString(p1.pageNumber), NatToString(p1.pageSize), SortToString(p1.sort),
                   c2, NatToString(p2.pageNumber), NatToString(p2.pageSize), SortToString(p2.sort));
    SortToStringInjective(p1.sort, p2.sort);
    NatToStringInjective(p1.pageSize, p2.pageSize);
    NatToStringInjective(p1.pageNumber, p2.pageNumber);
    assert KeyName(n1) == c1[5..] && KeyName(n2) == c2[5..];
  }

  /** The query depends on the name only through its trimmed-or-empty form. */
  lemma QueryByKeyName(n1: Option<string>, n2: Option<string>, pageable: Pageable)
    requires KeyName(n1) == KeyName(n2)
    ensures ChooseQuery(n1, pageable) == ChooseQuery(n2, pageable)
  {
    assert IsBlank("");
  }

  /** Cache soundness: two listings that share a key run the same query. */
  lemma SameKeySameQuery(n1: Option<string>, p1: Pageable, n2: Option<string>, p2: Pageable)
    requires CacheKey(n1, p1) == CacheKey(n2, p2)
    ensures ChooseQuery(n1, p1) == ChooseQuery(n2, p2)
  {
    CacheKeyInjective(n1, p1, n2, p2);
    QueryByKeyName(n1, n2, p1);
  }

  /** A null, empty or padding-only name shares its key with every other such
      name and runs the unfiltered scan. */
  lemma BlankNamesShareKey(s: string, pageable: Pageable)
    requires AllTrimmed(s)
    ensures CacheKey(Some(s), pageable) == CacheKey(None, pageable) == CacheKey(Some(""), pageable)
    ensures ChooseQuery(Some(s), pageable) == ChooseQuery(None, pageable)
              == ChooseQuery(Some(""), pageable) == FindAll(pageable)
  {
    assert IsBlank("");
    assert Trim("") == [] by { assert AllTrimmed(""); }
  }

  /** The key spelled out for the page request the service tests use, with the
      name padded on both sides. */
  lemma CacheKeyExample(name: string, pageable: Pageable)
    requires name == "  Test " && pageable == Pageable(0, 10, Unsorted)
    ensures CacheKey(Some(name), pageable) == "name=Test|p=0|s=10|sort=UNSORTED"
  {
    KeyExampleFields(name, pageable);
    var k := KeyName(Some(name));
    var pn := NatToString(pageable.pageNumber);
    var ps := NatToString(pageable.pageSize);
    var t := SortToString(pageable.sort);
    calc {
      CacheKey(Some(name), pageable);
      "name=" + k + "|" + "p=" + pn + "|" + "s=" + ps + "|" + "sort=" + t;
      "name=" + "Test" + "|" + "p=" + "0" + "|" + "s=" + "10" + "|" + "sort=" + "UNSORTED";
      { KeyLiteral(); }
      "name=Test|p=0|s=10|sort=UNSORTED";
    }
  }

  /** The four fields of the example key, one by one. */
  lemma KeyExampleFields(name: string, pageable: Pageable)
    requires name == "  Test " && pageable == Pageable(0, 10, Unsorted)
    ensures KeyName(Some(name)) == "Test"
    ensures NatToString(pageable.pageNumber) == "0"
    ensures NatToString(pageable.pageSize) == "10"
    ensures SortToString(pageable.sort) == "UNSORTED"
  {
    assert KeyName(Some(name)) == "Test" by {
      assert name == "  " + "Test" + " ";
      TrimPadded("  ", "Test", " ");
    }
    assert NatToString(pageable.pageSize) == "10" by {
      assert NatToString(1) == "1";
      assert NatToString(10) == NatToString(1) + "0";
    }
  }

  lemma KeyLiteral()
    ensures "name=" + "Test" + "|" + "p=" + "0" + "|" + "s=" + "10" + "|" + "sort=" + "UNSORTED"
         == "name=Test|p=0|s=10|sort=UNSORTED"
  {
    assert "name=" + "Test" + "|" == "name=Test|";
    assert "name=Test|" + "p=" + "0" == "name=Test|p=0";
    assert "name=Test|p=0" + "|" + "s=" == "name=Test|p=0|s=";
    assert "name=Test|p=0|s=" + "10" + "|" == "name=Test|p=0|s=10|";
    assert "name=Test|p=0|s=10|" + "sort=" + "UNSORTED" == "name=Test|p=0|s=10|sort=UNSORTED";
  }

  /** The repository page a query yields. */
  function RunQuery(store: Store, q: CustomerQuery): (r: Page<Customer>)
    reads store
    requires store.Valid()
    ensures q.FindAll? ==> r.totalElements == |store.customers|
    ensures q.FindByNameContainingIgnoreCase? ==>
              forall c :: c in r.content ==> ContainsIgnoreCase(c.name, q.name)
    ensures q.FindByNameContainingIgnoreCase? ==>
              r.totalElements == |set k | k in store.customers && ContainsIgnoreCase(store.customers[k].name, q.name)|
  {
    match q
    case FindAll(pageable) => store.FindAllCustomers(pageable)
    case FindByNameContainingIgnoreCase(name, pageable) => store.FindCustomersByName(name, pageable)
  }

  /** The page a listing computes when nothing is cached. */
  function FreshPage(store: Store, name: Option<string>, pageable: Pageable): (r: Page<CustomerView>)
    reads store
    requires store.Valid()
    ensures r.number == pageable.pageNumber && r.size == pageable.pageSize
    ensures var q := ChooseQuery(name, pageable);
            q.FindAll? ==> r.totalElements == |store.customers|
    ensures var q := ChooseQuery(name, pageable);
            q.FindByNameContainingIgnoreCase? ==>
              && (forall v :: v in r.content ==> ContainsIgnoreCase(v.name, q.name))
              && r.totalElements == |set k | k in store.customers && ContainsIgnoreCase(store.customers[k].name, q.name)|
  {
    var q := ChooseQuery(name, pageable);
    var found := RunQuery(store, q);
    var r := MapPage(found, CustomerToView);
    assert q.FindByNameContainingIgnoreCase? ==> forall v :: v in r.content ==> ContainsIgnoreCase(v.name, q.name) by {
      if q.FindByNameContainingIgnoreCase? {
        forall v | v in r.content ensures ContainsIgnoreCase(v.name, q.name) {
          var i :| 0 <= i < |r.content| && r.content[i] == v;
          assert found.content[i] in found.content;
        }
      }
    }
    r
  }

  /** Customers "Alice Smith" and "bob" are stored; listing with the filter
      "smith" finds Alice and only her. */
  lemma NameFilterExample(store: Store, alice: Customer, bob: Customer, filter: string, pageable: Pageable)
    requires alice.id == Some(1) && alice.name == "Alice Smith"
    requires bob.id == Some(2) && bob.name == "bob"
    requires store.Valid() && store.customers == map[1 := alice, 2 := bob]
    requires filter == "smith" && pageable == Pageable(0, 10, Unsorted)
    ensures FreshPage(store, Some(filter), pageable) == Page([CustomerView(Some(1), alice.name)], 0, 10, 1)
  {
    FilterIsQueried(filter, pageable);
    FilterFindsAlice(store, alice, bob, filter, pageable);
  }

  /** The filter "smith" needs no trimming and is not blank, so it is queried as given. */
  lemma FilterIsQueried(filter: string, pageable: Pageable)
    requires filter == "smith"
    ensures ChooseQuery(Some(filter), pageable) == FindByNameContainingIgnoreCase(filter, pageable)
  {
    assert Trim(filter) == filter by {
      assert [] + filter + [] == filter;
      TrimPadded([], filter, []);
    }
    assert !IsJavaWhitespace(filter[0]);
  }

  /** Of "Alice Smith" and "bob", the name query for "smith" returns Alice alone. */
  lemma FilterFindsAlice(store: Store, alice: Customer, bob: Customer, filter: string, pageable: Pageable)
    requires alice.id == Some(1) && alice.name == "Alice Smith"
    requires bob.id == Some(2) && bob.name == "bob"
    requires store.Valid() && store.customers == map[1 := alice, 2 := bob]
    requires filter == "smith" && pageable == Pageable(0, 10, Unsorted)
    ensures store.FindCustomersByName(filter, pageable) == Page([alice], 0, 10, 1)
  {
    OnlyAliceMatches(store, alice, bob, filter);
    var ks := store.MatchingCustomerKeys(filter);
    assert Ordered(ks, pageable.sort) == [1];
    assert Records(store.customers, [1]) == [alice];
  }

  /** Only key 1 holds a name containing "smith", case ignored. */
  lemma OnlyAliceMatches(store: Store, alice: Customer, bob: Customer, filter: string)
    requires alice.id == Some(1) && alice.name == "Alice Smith"
    requires bob.id == Some(2) && bob.name == "bob"
    requires store.Valid() && store.customers == map[1 := alice, 2 := bob]
    requires filter == "smith"
    ensures store.MatchingCustomerKeys(filter) == [1]
  {
    ContainsIgnoreCaseExample();
    var ks := store.MatchingCustomerKeys(filter);
    store.MatchingCustomerCount(filter);
    assert (set k | k in store.customers && ContainsIgnoreCase(store.customers[k].name, filter)) == {1};
    assert |ks| == 1;
    assert ks[0] in ks;
  }

  /** Every page in `cache` is the page its listing computes from `store` now. */
  ghost predicate Coherent(store: Store, cache: map<string, Page<CustomerView>>)
    reads store
    requires store.Valid()
  {
    forall name, pageable {:trigger CacheKey(name, pageable)} ::
      CacheKey(name, pageable) in cache ==> cache[CacheKey(name, pageable)] == FreshPage(store, name, pageable)
  }

  /** Storing a freshly computed page keeps the cache coherent: any listing that
      shares the key runs the same query. */
  lemma CacheFreshPage(store: Store, cache: map<string, Page<CustomerView>>, name: Option<string>, pageable: Pageable)
    requires store.Valid() && Coherent(store, cache)
    ensures Coherent(store, cache[CacheKey(name, pageable) := FreshPage(store, name, pageable)])
  {
    var key := CacheKey(name, pageable);
    var cache' := cache[key := FreshPage(store, name, pageable)];
    forall n, p | CacheKey(n, p) in cache'
      ensures cache'[CacheKey(n, p)] == FreshPage(store, n, p)
    {
      if CacheKey(n, p) == key {
        SameKeySameQuery(n, p, name, pageable);
      }
    }
  }

  class CustomerService {
    const store: Store
    var customersPage: map<string, Page<CustomerView>>

    /** Every cached page is the page its listing would compute now. */
    ghost predicate Valid()
      reads this, store
    {
      && store.Valid()
      && Coherent(store, customersPage)
    }

    constructor (store: Store)
      requires store.Valid()
      ensures Valid()
      ensures this.store == store && customersPage == map[]
    {
      this.store := store;
      customersPage := map[];
    }

    /** `getAllCustomers`, cached under `CacheKey`: a hit returns the stored page,
        a miss computes and stores it; either way the caller gets the page the
        listing computes now. */
    method GetAllCustomers(name: Option<string>, pageable: Pageable) returns (page: Page<CustomerView>)
      requires Valid()
      modifies this
      ensures Valid()
      ensures page == FreshPage(store, name, pageable)
      ensures customersPage == old(customersPage)[CacheKey(name, pageable) := page]
    {
      assert (store as object) != (this as object);
      var key := CacheKey(name, pageable);
      if key in customersPage {
        page := customersPage[key];
        assert customersPage[key := page] == customersPage;
        return;
      }
      var trimmedName := TrimmedName(name);
      var customers;
      if trimmedName.None? || IsBlank(trimmedName.value) {
        customers := store.FindAllCustomers(pageable);
      } else {
        customers := store.FindCustomersByName(trimmedName.value, pageable);
      }
      assert customers == RunQuery(store, ChooseQuery(name, pageable));
      page := MapPage(customers, CustomerToView);
      assert page == FreshPage(store, name, pageable);
      CacheFreshPage(store, customersPage, name, pageable);
      customersPage := customersPage[key := page];
    }

    /** `createCustomer`: one customer saved with the name and an empty orders
        list, then every `customersPage` entry evicted. */
    method CreateCustomer(name: string) returns (view: CustomerView)
      requires Valid()
      modifies this, store
      ensures Valid()
      ensures customersPage == map[]
      ensures var id := old(store.nextCustomerId);
              && id !in old(store.customers)
              && store.customers == old(store.customers)[id := Customer(Some(id), name, Some([]))]
              && store.nextCustomerId == id + 1
              && view == CustomerView(Some(id), name)
      ensures store.products == old(store.products) && store.orders == old(store.orders)
      ensures store.nextProductId == old(store.nextProductId) && store.nextOrderId == old(store.nextOrderId)
    {
      var customer := Customer(None, name, Some([]));
      var saved := store.SaveCustomer(customer);
      view := CustomerToView(saved);
      customersPage := map[];
    }
  }
}
