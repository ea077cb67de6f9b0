/** The header projection on the catalogs and configurations of the test suite. */
module HeadersExamples {
  import opened Wrappers
  import opened Types
  import opened Headers

  const A: Header<string> := Header(Some("a"), "A")
  const B: Header<string> := Header(Some("b"), "B")
  const C: Header<string> := Header(Some("c"), "C")

  /** Listing `b` then `a` shows exactly those two headers, in that order, unchanged. */
  lemma ReorderExample()
    ensures Projection([A, B, C], Some(HeadersConfig(["b", "a"], SortSpec("a", Asc)))) == [B, A]
  {
    var fields := ["b", "a"];
    assert IndexOf(fields, "b") == 0 && IndexOf(fields, "a") == 1;
    KeyRunSingle([A, B, C], "b", 1);
    KeyRunSingle([A, B, C], "a", 0);
    assert Buckets([A, B, C], fields, 2) == [];
    assert Buckets([A, B, C], fields, 1) == [A];
  }

  /** Keys that no catalog header carries give an empty projection. */
  lemma NoOverlapExample()
    ensures Projection([A, B, C], Some(HeadersConfig(["x", "y"], SortSpec("x", Asc)))) == []
  {
    ProjectionNoMatch([A, B, C], HeadersConfig(["x", "y"], SortSpec("x", Asc)));
  }

  /** A listed key that no header carries is skipped; the others keep the listed order. */
  lemma UnknownKeyExample()
    ensures Projection([A, B, C], Some(HeadersConfig(["c", "nonExistingHeader", "a"], SortSpec("c", Desc)))) == [C, A]
  {
    var fields := ["c", "nonExistingHeader", "a"];
    assert IndexOf(fields, "c") == 0 && IndexOf(fields, "nonExistingHeader") == 1 && IndexOf(fields, "a") == 2;
    KeyRunSingle([A, B, C], "c", 2);
    KeyRunEmpty([A, B, C], "nonExistingHeader");
    KeyRunSingle([A, B, C], "a", 0);
    assert Buckets([A, B, C], fields, 3) == [];
    assert Buckets([A, B, C], fields, 2) == [A];
    assert Buckets([A, B, C], fields, 1) == [A];
  }

  /**
   * The service built without and with a configuration, as the tests build it;
   * asking a service twice gives the same headers.
   */
  method ServiceExample() returns (all: seq<Header<string>>, reordered: seq<Header<string>>, again: seq<Header<string>>)
    ensures all == [A, B, C]
    ensures reordered == [B, A]
    ensures again == reordered
  {
    var catalog := new Header<string>[3][A, B, C];
    var plain := new HeadersService(catalog, None);
    var shown := plain.GetHeaders();
    all := shown[..];
    var configured := new HeadersService(catalog, Some(HeadersConfig(["b", "a"], SortSpec("a", Asc))));
    shown := configured.GetHeaders();
    reordered := shown[..];
    shown := configured.GetHeaders();
    again := shown[..];
    ReorderExample();
  }
}
