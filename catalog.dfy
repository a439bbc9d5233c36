/** The asset catalogue of pywebcoos/API.py: assets (cameras) hold feeds,
    feeds hold products, products hold services. The scans over it are
    written as the loops of the source, each proved equal to a recursive
    specification whose own contract says which entry is chosen. */
module Catalog {

  import opened Errors

  datatype Service = Service(slug: string)
  datatype Product = Product(name: string, services: seq<Service>)
  datatype Feed = Feed(name: string, products: seq<Product>)
  /** An asset's `timezone` property is optional; `None` is the KeyError
      case of `_local2ISO`. */
  datatype Asset = Asset(name: string, timezone: Option<string>, feeds: seq<Feed>)

  /** The feed every public operation asks for. */
  const RawVideoFeed := "raw-video-data"

  // ---------------------------------------------------------------------
  // Specifications
  // ---------------------------------------------------------------------

  /** `_get_camera_list`: the asset labels, in result order. */
  function CameraList(assets: seq<Asset>): (names: seq<string>)
    ensures |names| == |assets|
    ensures forall i :: 0 <= i < |assets| ==> names[i] == assets[i].name
  {
    if assets == [] then [] else [assets[0].name] + CameraList(assets[1..])
  }

  /** The product labels `get_products` lists, in product order. */
  function ProductLabels(products: seq<Product>): (labels: seq<string>)
    ensures |labels| == |products|
    ensures forall i :: 0 <= i < |products| ==> labels[i] == products[i].name
  {
    if products == [] then [] else [products[0].name] + ProductLabels(products[1..])
  }

  /** Asset `i` is the first one labelled `name`. */
  predicate IsFirstAsset(assets: seq<Asset>, name: string, i: int) {
    0 <= i < |assets| && assets[i].name == name &&
    forall j :: 0 <= j < i ==> assets[j].name != name
  }

  /** `_get_camera_feeds`: the feeds of the first asset labelled `name`;
      with none, the never-assigned `feeds` is read. */
  function FeedsOf(assets: seq<Asset>, name: string): (r: Result<seq<Feed>>)
    ensures r.Err? <==> forall i :: 0 <= i < |assets| ==> assets[i].name != name
    ensures r.Err? ==> r.error == UnboundLocalError("feeds")
    ensures r.Ok? ==> exists i :: IsFirstAsset(assets, name, i) && r.value == assets[i].feeds
  {
    if assets == [] then Err(UnboundLocalError("feeds"))
    else if assets[0].name == name then
      assert IsFirstAsset(assets, name, 0);
      Ok(assets[0].feeds)
    else
      FirstAssetShift(assets, name);
      FeedsOf(assets[1..], name)
  }

  /** When asset 0 is not labelled `name`, the first match in `assets` is
      one place after the first match in `assets[1..]`. */
  lemma FirstAssetShift(assets: seq<Asset>, name: string)
    requires |assets| > 0 && assets[0].name != name
    ensures forall i :: IsFirstAsset(assets, name, i) <==> i >= 1 && IsFirstAsset(assets[1..], name, i - 1)
    ensures (forall i :: 0 <= i < |assets| ==> assets[i].name != name) <==>
      (forall i :: 0 <= i < |assets[1..]| ==> assets[1..][i].name != name)
  {
    forall i ensures IsFirstAsset(assets, name, i) <==> i >= 1 && IsFirstAsset(assets[1..], name, i - 1) {
      if i >= 1 && IsFirstAsset(assets[1..], name, i - 1) {
        forall j | 0 <= j < i ensures assets[j].name != name {
          if j > 0 { assert assets[j] == assets[1..][j - 1]; }
        }
      }
    }
    if forall i :: 0 <= i < |assets[1..]| ==> assets[1..][i].name != name {
      forall i | 0 <= i < |assets| ensures assets[i].name != name {
        if i > 0 { assert assets[i] == assets[1..][i - 1]; }
      }
    }
  }

  /** Feed `i` is the last one labelled `name`. */
  predicate IsLastFeed(feeds: seq<Feed>, name: string, i: int) {
    0 <= i < |feeds| && feeds[i].name == name &&
    forall j :: i < j < |feeds| ==> feeds[j].name != name
  }

  /** `_get_camera_products`: the loop has no `break`, so the products of
      the LAST feed labelled `name` are returned; with none, the
      never-assigned `products` is read. */
  function ProductsOf(feeds: seq<Feed>, name: string): (r: Result<seq<Product>>)
    ensures r.Err? <==> forall i :: 0 <= i < |feeds| ==> feeds[i].name != name
    ensures r.Err? ==> r.error == UnboundLocalError("products")
    ensures r.Ok? ==> exists i :: IsLastFeed(feeds, name, i) && r.value == feeds[i].products
  {
    if feeds == [] then Err(UnboundLocalError("products"))
    else
      var n := |feeds| - 1;
      if feeds[n].name == name then
        assert IsLastFeed(feeds, name, n);
        Ok(feeds[n].products)
      else
        LastFeedShift(feeds, name);
        ProductsOf(feeds[..n], name)
  }

  /** When the last feed is not labelled `name`, the last match in `feeds`
      is the last match in the feeds before it. */
  lemma LastFeedShift(feeds: seq<Feed>, name: string)
    requires |feeds| > 0 && feeds[|feeds| - 1].name != name
    ensures var n := |feeds| - 1;
      forall i :: IsLastFeed(feeds, name, i) <==> i < n && IsLastFeed(feeds[..n], name, i)
    ensures var n := |feeds| - 1;
      (forall i :: 0 <= i < |feeds| ==> feeds[i].name != name) <==>
      (forall i :: 0 <= i < n ==> feeds[..n][i].name != name)
  {
  }

  /** Product `i` is the first one labelled `name`. */
  predicate IsFirstProduct(products: seq<Product>, name: string, i: int) {
    0 <= i < |products| && products[i].name == name &&
    forall j :: 0 <= j < i ==> products[j].name != name
  }

  /** The slug-selection part of `_get_service_slug`: the inner loop
      overwrites `service_slug` for every service of the first product
      labelled `name`, so the LAST service's slug is kept; when no product
      matches, or the matching one has no services, `service_slug` is read
      unassigned. */
  function ServiceSlugOf(products: seq<Product>, name: string): (r: Result<string>)
    ensures r.Err? ==> r.error == UnboundLocalError("service_slug")
    ensures r.Ok? <==> exists i :: IsFirstProduct(products, name, i) && |products[i].services| > 0
    ensures r.Ok? ==>
      exists i :: IsFirstProduct(products, name, i) && r.value == products[i].services[|products[i].services| - 1].slug
  {
    if products == [] then Err(UnboundLocalError("service_slug"))
    else if products[0].name == name then
      assert IsFirstProduct(products, name, 0);
      var services := products[0].services;
      if services == [] then
        assert forall i :: IsFirstProduct(products, name, i) ==> i == 0;
        Err(UnboundLocalError("service_slug"))
      else Ok(services[|services| - 1].slug)
    else
      var r := ServiceSlugOf(products[1..], name);
      FirstProductShift(products, name);
      r
  }

  /** When product 0 is not labelled `name`, the first match in `products`
      is one place after the first match in `products[1..]`. */
  lemma FirstProductShift(products: seq<Product>, name: string)
    requires |products| > 0 && products[0].name != name
    ensures forall i :: IsFirstProduct(products, name, i) <==> i >= 1 && IsFirstProduct(products[1..], name, i - 1)
  {
    forall i ensures IsFirstProduct(products, name, i) <==> i >= 1 && IsFirstProduct(products[1..], name, i - 1) {
      if i >= 1 && IsFirstProduct(products[1..], name, i - 1) {
        forall j | 0 <= j < i ensures products[j].name != name {
          if j > 0 { assert products[j] == products[1..][j - 1]; }
        }
      }
    }
  }

  // ---------------------------------------------------------------------
  // The loops of the source
  // ---------------------------------------------------------------------

  /** `_get_camera_feeds`: scan the assets and stop at the first match. */
  method GetCameraFeeds(assets: seq<Asset>, cameraName: string) returns (r: Result<seq<Feed>>)
    ensures r == FeedsOf(assets, cameraName)
  {
    r := Err(UnboundLocalError("feeds"));
    var i := 0;
    while i < |assets|
      invariant 0 <= i <= |assets|
      invariant forall j :: 0 <= j < i ==> assets[j].name != cameraName
      invariant r == Err(UnboundLocalError("feeds"))
    {
      if assets[i].name == cameraName {
        r := Ok(assets[i].feeds);
        FeedsOfFirst(assets, cameraName, i);
        break;
      }
      i := i + 1;
    }
  }

  /** `_get_camera_products`: scan every feed, keeping the last match. */
  method GetCameraProducts(feeds: seq<Feed>, feedName: string) returns (r: Result<seq<Product>>)
    ensures r == ProductsOf(feeds, feedName)
  {
    r := Err(UnboundLocalError("products"));
    for i := 0 to |feeds|
      invariant r == ProductsOf(feeds[..i], feedName)
    {
      assert feeds[..i + 1][..i] == feeds[..i];
      if feeds[i].name == feedName {
        r := Ok(feeds[i].products);
      }
    }
    assert feeds[..|feeds|] == feeds;
  }

  /** The slug selection of `_get_service_slug`: find the first product
      with the label, then walk all its services, keeping each slug. */
  method SelectServiceSlug(products: seq<Product>, productName: string) returns (r: Result<string>)
    ensures r == ServiceSlugOf(products, productName)
  {
    r := Err(UnboundLocalError("service_slug"));
    var i := 0;
    while i < |products|
      invariant 0 <= i <= |products|
      invariant forall j :: 0 <= j < i ==> products[j].name != productName
      invariant r == Err(UnboundLocalError("service_slug"))
    {
      if products[i].name == productName {
        var services := products[i].services;
        for k := 0 to |services|
          invariant k == 0 ==> r == Err(UnboundLocalError("service_slug"))
          invariant k > 0 ==> r == Ok(services[k - 1].slug)
        {
          r := Ok(services[k].slug);
        }
        ServiceSlugOfFirst(products, productName, i);
        return;
      }
      i := i + 1;
    }
    ServiceSlugOfNone(products, productName);
  }

  // ---------------------------------------------------------------------
  // Lemmas
  // ---------------------------------------------------------------------

  /** The feeds of the first asset carrying the label are chosen. */
  lemma {:induction false} FeedsOfFirst(assets: seq<Asset>, name: string, i: int)
    requires IsFirstAsset(assets, name, i)
    ensures FeedsOf(assets, name) == Ok(assets[i].feeds)
    decreases i
  {
    if i > 0 {
      assert IsFirstAsset(assets[1..], name, i - 1);
      FeedsOfFirst(assets[1..], name, i - 1);
    }
  }

  lemma {:induction false} ServiceSlugOfFirst(products: seq<Product>, name: string, i: int)
    requires IsFirstProduct(products, name, i)
    ensures var services := products[i].services;
      ServiceSlugOf(products, name) ==
        if services == [] then Err(UnboundLocalError("service_slug"))
        else Ok(services[|services| - 1].slug)
    decreases i
  {
    if i > 0 {
      assert IsFirstProduct(products[1..], name, i - 1);
      ServiceSlugOfFirst(products[1..], name, i - 1);
    }
  }

  lemma ServiceSlugOfNone(products: seq<Product>, name: string)
    requires forall j :: 0 <= j < |products| ==> products[j].name != name
    ensures ServiceSlugOf(products, name) == Err(UnboundLocalError("service_slug"))
  {
  }

  /** A camera listed twice: the feeds of its first entry are used. */
  lemma DuplicateAssetFirstWins(a: Asset, b: Asset)
    requires a.name == b.name
    ensures FeedsOf([a, b], a.name) == Ok(a.feeds)
  {
  }

  /** Two feeds labelled `raw-video-data`: the products of the second are used. */
  lemma DuplicateFeedLastWins(f: Feed, g: Feed)
    requires f.name == RawVideoFeed && g.name == RawVideoFeed
    ensures ProductsOf([f, g], RawVideoFeed) == Ok(g.products)
  {
    assert IsLastFeed([f, g], RawVideoFeed, 1);
  }

  /** A product with several services: the slug of its last service is used. */
  lemma LastServiceWins(p: Product, s: Service, t: Service)
    requires p.services == [s, t]
    ensures ServiceSlugOf([p], p.name) == Ok(t.slug)
  {
  }
}
