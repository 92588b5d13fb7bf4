/** The product table: the name/description search with the status and
    category filters, and the distinct categories of its dropdown. */
module ProductTable {
  import opened Common

  datatype ProductStatus = Active | Inactive | Draft

  /** A product as the table receives it (the fields it filters on). */
  datatype Product = Product(id: string, name: string, description: string, category: string, status: ProductStatus)

  /** The status as the select box spells it. */
  function StatusName(s: ProductStatus): (r: string)
    ensures r != "all"
  {
    match s
    case Active => "active"
    case Inactive => "inactive"
    case Draft => "draft"
  }

  /** The search box: the lower-cased term occurs in the lower-cased name or
      description. */
  predicate MatchesSearch(p: Product, search: string)
  {
    var q := ToLower(search);
    Includes(ToLower(p.name), q) || Includes(ToLower(p.description), q)
  }

  predicate Matches(p: Product, search: string, statusFilter: string, categoryFilter: string)
  {
    MatchesSearch(p, search) && MatchesChoice(statusFilter, StatusName(p.status)) && MatchesChoice(categoryFilter, p.category)
  }

  /** filteredProducts: the products, in order, that match the search and
      both filters; an empty search under "all"/"all" keeps every one. */
  function FilteredProducts(products: seq<Product>, search: string, statusFilter: string, categoryFilter: string): (r: seq<Product>)
    ensures IsSubsequence(r, products)
    ensures forall p :: p in r <==> p in products && Matches(p, search, statusFilter, categoryFilter)
    ensures search == "" && statusFilter == "all" && categoryFilter == "all" ==> r == products
  {
    FilterIsSubsequence(products, (p: Product) => Matches(p, search, statusFilter, categoryFilter));
    Filter(products, (p: Product) => Matches(p, search, statusFilter, categoryFilter))
  }

  /** Each status choice other than "all" keeps only products of that
      status, and the three choices split the unfiltered list among them. */
  lemma StatusFilterPartitions(products: seq<Product>, search: string, categoryFilter: string, s: ProductStatus)
    ensures forall p :: p in FilteredProducts(products, search, StatusName(s), categoryFilter) ==> p.status == s
    ensures forall p :: p in FilteredProducts(products, search, "all", categoryFilter) ==>
              p in FilteredProducts(products, search, StatusName(p.status), categoryFilter)
  {
  }

  function CategoryOf(p: Product): string { p.category }

  /** categories: the products' categories, each once, in order of first
      appearance. */
  function Categories(products: seq<Product>): (r: seq<string>)
    ensures NoDuplicates(r)
    ensures IsSubsequence(r, MapSeq(products, CategoryOf))
    ensures forall c :: c in r <==> exists p :: p in products && p.category == c
  {
    DistinctIsSubsequence(MapSeq(products, CategoryOf));
    forall c ensures c in MapSeq(products, CategoryOf) <==> exists p :: p in products && p.category == c {
      MapSeqMembers(products, CategoryOf, c);
    }
    Distinct(MapSeq(products, CategoryOf))
  }
}
