/** The `API` object of pywebcoos/API.py: built from the asset list the
    server returns for a token, it validates requests against that list,
    walks the catalogue, chooses a camera's time zone, and runs a download.
    The server's answers are inputs: `inventoryFor` gives the inventory
    response of a service slug, `pages` the successive element pages,
    `server` the body of each media URL, and `toUtc` the zone conversion
    of pytz. */
module Client {

  import opened Errors
  import opened Text
  import opened Dates
  import GeoDb
  import Timezones
  import opened Catalog
  import opened Elements
  import opened Imagery

  /** The base of every endpoint URL. */
  const ApiBase := "https://app.webcoos.org/webcoos/api/v1"

  /** One inventory row; only the two columns the client reads are kept. */
  datatype Bin = Bin(binStart: string, binEnd: string)

  /** The inventory response of a service: its status code and, per
      result, the rows of `values`. */
  datatype InventoryResponse = InventoryResponse(status: int, results: seq<seq<Bin>>)

  /** What `get_inventory` returns: the least `Bin Start` and the greatest
      `Bin End`, or, for an inventory without rows, the pair of NaNs that
      pandas gives as the minimum and maximum of an empty column. */
  datatype Span = NoData | Span(first: string, last: string)

  /** The local-to-UTC conversion of a zone (pytz `localize` followed by
      `astimezone(UTC)`), whose rules are not part of this model. */
  type Conversion = (string, DateTime) -> DateTime

  // ---------------------------------------------------------------------
  // Inventory values
  // ---------------------------------------------------------------------

  /** The `Bin Start` column. */
  function Starts(rows: seq<Bin>): (s: seq<string>)
    ensures |s| == |rows|
    ensures forall i :: 0 <= i < |rows| ==> s[i] == rows[i].binStart
  {
    if rows == [] then [] else [rows[0].binStart] + Starts(rows[1..])
  }

  /** The `Bin End` column. */
  function Ends(rows: seq<Bin>): (s: seq<string>)
    ensures |s| == |rows|
    ensures forall i :: 0 <= i < |rows| ==> s[i] == rows[i].binEnd
  {
    if rows == [] then [] else [rows[0].binEnd] + Ends(rows[1..])
  }

  /** The minimum of `Bin Start` and the maximum of `Bin End`: both are
      values of their column, and no row starts earlier or ends later. */
  function SpanOf(rows: seq<Bin>): (s: Span)
    ensures s.NoData? <==> rows == []
    ensures s.Span? ==> exists i :: 0 <= i < |rows| && rows[i].binStart == s.first
    ensures s.Span? ==> exists i :: 0 <= i < |rows| && rows[i].binEnd == s.last
    ensures s.Span? ==> forall i :: 0 <= i < |rows| ==> StrLe(s.first, rows[i].binStart) && StrLe(rows[i].binEnd, s.last)
  {
    if rows == [] then NoData
    else
      var starts := Starts(rows);
      var ends := Ends(rows);
      var first := MinStr(starts);
      var last := MaxStr(ends);
      assert forall i :: 0 <= i < |rows| ==> starts[i] in starts && ends[i] in ends;
      var i :| 0 <= i < |starts| && starts[i] == first;
      var j :| 0 <= j < |ends| && ends[j] == last;
      Span(first, last)
  }

  /** The rows `_get_service_slug` reads from an inventory response: a
      failed request leaves `inventory_json` unassigned, and `[0]` of an
      empty result list raises IndexError. */
  function InventoryRows(response: InventoryResponse): (r: Result<seq<Bin>>)
    ensures r.Ok? <==> response.status == 200 && response.results != []
    ensures r.Ok? ==> r.value == response.results[0]
    ensures response.status != 200 ==> r == Err(UnboundLocalError("inventory_json"))
    ensures response.status == 200 && response.results == [] ==> r == Err(IndexError)
  {
    if response.status != 200 then Err(UnboundLocalError("inventory_json"))
    else if response.results == [] then Err(IndexError)
    else Ok(response.results[0])
  }

  /** The indices `np.where` returns for the cameras named `name`, in
      increasing order. */
  function Where(names: seq<string>, name: string): (w: seq<nat>)
    ensures forall k :: k in w <==> 0 <= k < |names| && names[k] == name
    ensures forall a, b :: 0 <= a < b < |w| ==> w[a] < w[b]
    ensures forall a :: 0 <= a < |w| ==> w[a] < |names|
  {
    if names == [] then []
    else
      var n := |names| - 1;
      var w := Where(names[..n], name);
      if names[n] == name then w + [n] else w
  }

  class Api {
    /** the `results` of the assets response */
    const assets: seq<Asset>
    /** `self.cameras`: the camera names, one per asset */
    const cameras: seq<string>
    /** `self.tz`: unset until a time is first converted */
    var tz: Option<string>

    /** The object built from a valid assets response. */
    constructor (assets: seq<Asset>)
      ensures this.assets == assets && cameras == CameraList(assets) && tz == None
    {
      this.assets := assets;
      cameras := CameraList(assets);
      tz := None;
    }

    /** `__init__`: an invalid token (no assets response) raises
        ValueError; otherwise the camera list is built from the assets. */
    static method Connect(response: Option<seq<Asset>>) returns (r: Result<Api>)
      ensures r.Err? <==> response.None?
      ensures r.Err? ==> r.error == ValueError(TokenMessage)
      ensures r.Ok? ==> fresh(r.value)
      ensures r.Ok? ==> r.value.assets == response.value && r.value.cameras == CameraList(response.value)
      ensures r.Ok? ==> r.value.tz == None
    {
      if response.None? {
        return Err(ValueError(TokenMessage));
      }
      var api := new Api(response.value);
      r := Ok(api);
    }

    /** The camera list is the asset labels in result order. */
    predicate Valid() {
      cameras == CameraList(assets)
    }

    // -------------------------------------------------------------------
    // Validators and the catalogue
    // -------------------------------------------------------------------

    /** `_check_camera_name`: the name must label some asset. */
    function CheckCameraName(cameraName: string): (r: Outcome)
      requires Valid()
      ensures r == Pass <==> exists i :: 0 <= i < |assets| && assets[i].name == cameraName
      ensures r.Fail? ==> r.error == ValueError(CameraMessage)
    {
      if cameraName in cameras then
        assert exists i :: 0 <= i < |cameras| && cameras[i] == cameraName;
        Pass
      else
        assert forall i :: 0 <= i < |assets| ==> cameras[i] == assets[i].name;
        Fail(ValueError(CameraMessage))
    }

    /** `get_products`: the labels of the products of the last
        `raw-video-data` feed of the first asset with the camera's name. */
    function Products(cameraName: string): (r: Result<seq<string>>)
      requires Valid()
      ensures CheckCameraName(cameraName).Fail? ==> r == Err(ValueError(CameraMessage))
      ensures CheckCameraName(cameraName) == Pass ==>
        exists i :: IsFirstAsset(assets, cameraName, i) &&
          (r.Err? <==> forall j :: 0 <= j < |assets[i].feeds| ==> assets[i].feeds[j].name != RawVideoFeed) &&
          (r.Err? ==> r.error == UnboundLocalError("products")) &&
          (r.Ok? ==> exists j ::
             IsLastFeed(assets[i].feeds, RawVideoFeed, j) && r.value == ProductLabels(assets[i].feeds[j].products))
    {
      if CheckCameraName(cameraName).Fail? then Err(ValueError(CameraMessage))
      else
        match FeedsOf(assets, cameraName)
        case Err(e) => Err(e)
        case Ok(feeds) =>
          match ProductsOf(feeds, RawVideoFeed)
          case Err(e) => Err(e)
          case Ok(products) => Ok(ProductLabels(products))
    }

    /** `get_products`: the three lookups, then a loop collecting labels. */
    method GetProducts(cameraName: string) returns (r: Result<seq<string>>)
      requires Valid()
      ensures r == Products(cameraName)
    {
      var check := CheckCameraName(cameraName);
      if check.Fail? {
        return Err(check.error);
      }
      // a listed camera labels some asset, so its feeds are found
      var feeds := GetCameraFeeds(assets, cameraName);
      assert feeds.Ok?;
      var products := GetCameraProducts(feeds.value, RawVideoFeed);
      if products.Err? {
        return Err(products.error);
      }
      var all := products.value;
      var labels: seq<string> := [];
      for i := 0 to |all|
        invariant |labels| == i
        invariant forall j :: 0 <= j < i ==> labels[j] == all[j].name
      {
        labels := labels + [all[i].name];
      }
      assert labels == ProductLabels(all);
      r := Ok(labels);
    }

    /** `_check_product_name`: the product must be among the camera's
        product labels; the errors of `get_products` come first. */
    function CheckProductName(cameraName: string, productName: string): (r: Outcome)
      requires Valid()
      ensures r == Pass <==> Products(cameraName).Ok? && productName in Products(cameraName).value
      ensures r.Fail? && Products(cameraName).Err? ==> r.error == Products(cameraName).error
      ensures r.Fail? && Products(cameraName).Ok? ==> r.error == ValueError(ProductMessage)
    {
      match Products(cameraName)
      case Err(e) => Fail(e)
      case Ok(labels) => if productName in labels then Pass else Fail(ValueError(ProductMessage))
    }

    /** The slug `_get_service_slug` selects for a product of the camera. */
    function ServiceSlug(cameraName: string, productName: string): Result<string>
    {
      match FeedsOf(assets, cameraName)
      case Err(e) => Err(e)
      case Ok(feeds) =>
        match ProductsOf(feeds, RawVideoFeed)
        case Err(e) => Err(e)
        case Ok(products) => ServiceSlugOf(products, productName)
    }

    /** `_get_service_slug`: the slug, then the rows of the inventory
        request made for it. */
    function ServiceInventory(cameraName: string, productName: string, inventoryFor: string -> InventoryResponse): (r: Result<seq<Bin>>)
      ensures ServiceSlug(cameraName, productName).Err? ==> r == Err(ServiceSlug(cameraName, productName).error)
      ensures r.Ok? <==> (ServiceSlug(cameraName, productName).Ok? &&
        var response := inventoryFor(ServiceSlug(cameraName, productName).value);
        response.status == 200 && response.results != [])
      ensures r.Ok? ==> r.value == inventoryFor(ServiceSlug(cameraName, productName).value).results[0]
      ensures ServiceSlug(cameraName, productName).Ok? && r.Err? ==>
        r == InventoryRows(inventoryFor(ServiceSlug(cameraName, productName).value))
    {
      match ServiceSlug(cameraName, productName)
      case Err(e) => Err(e)
      case Ok(slug) => InventoryRows(inventoryFor(slug))
    }

    /** `get_inventory`: both names are checked, then the slug is chosen,
        its inventory fetched, and the extreme bin bounds taken. */
    function Inventory(cameraName: string, productName: string, inventoryFor: string -> InventoryResponse): (r: Result<Span>)
      requires Valid()
      ensures CheckCameraName(cameraName).Fail? ==> r == Err(ValueError(CameraMessage))
      ensures CheckCameraName(cameraName) == Pass && CheckProductName(cameraName, productName).Fail? ==>
        r == Err(CheckProductName(cameraName, productName).error)
      ensures (CheckCameraName(cameraName) == Pass && CheckProductName(cameraName, productName) == Pass &&
        ServiceSlug(cameraName, productName).Err?) ==> r == Err(ServiceSlug(cameraName, productName).error)
      ensures (CheckCameraName(cameraName) == Pass && CheckProductName(cameraName, productName) == Pass &&
        ServiceSlug(cameraName, productName).Ok?) ==>
        var rows := InventoryRows(inventoryFor(ServiceSlug(cameraName, productName).value));
        (r.Ok? <==> rows.Ok?) && (rows.Err? ==> r == Err(rows.error))
      ensures r.Ok? ==> ServiceSlug(cameraName, productName).Ok?
      ensures r.Ok? ==>
        var response := inventoryFor(ServiceSlug(cameraName, productName).value);
        response.status == 200 && response.results != [] && r.value == SpanOf(response.results[0])
    {
      if CheckCameraName(cameraName).Fail? then Err(ValueError(CameraMessage))
      else if CheckProductName(cameraName, productName).Fail? then Err(CheckProductName(cameraName, productName).error)
      else
        match ServiceInventory(cameraName, productName, inventoryFor)
        case Err(e) => Err(e)
        case Ok(rows) => Ok(SpanOf(rows))
    }

    /** `get_inventory` as the source runs it: the checks, the three
        catalogue loops, the inventory request, and the minimum and maximum. */
    method GetInventory(cameraName: string, productName: string, inventoryFor: string -> InventoryResponse)
      returns (r: Result<Span>)
      requires Valid()
      ensures r == Inventory(cameraName, productName, inventoryFor)
    {
      var check := CheckCameraName(cameraName);
      if check.Fail? {
        return Err(check.error);
      }
      var labels := GetProducts(cameraName);
      if labels.Err? {
        return Err(labels.error);
      }
      if productName !in labels.value {
        return Err(ValueError(ProductMessage));
      }
      // the product check has already found the camera's feeds and products
      var feeds := GetCameraFeeds(assets, cameraName);
      assert feeds.Ok?;
      var products := GetCameraProducts(feeds.value, RawVideoFeed);
      assert products.Ok?;
      var slug := SelectServiceSlug(products.value, productName);
      if slug.Err? {
        return Err(slug.error);
      }
      var rows := InventoryRows(inventoryFor(slug.value));
      if rows.Err? {
        return Err(rows.error);
      }
      r := Ok(SpanOf(rows.value));
    }
  
    // -------------------------------------------------------------------
    // The time zone of a camera and the conversion of a bound
    // -------------------------------------------------------------------

    /** `int(np.where(cameras == name)[0])`: the position of the camera,
        which must be listed exactly once; `int()` of an empty or longer
        index array raises TypeError. */
    function CameraIndex(cameraName: string): (r: Result<nat>)
      ensures r.Ok? <==> exists i :: (0 <= i < |cameras| && cameras[i] == cameraName &&
        forall j :: 0 <= j < |cameras| && cameras[j] == cameraName ==> j == i)
      ensures r.Ok? ==> r.value < |cameras| && cameras[r.value] == cameraName
      ensures r.Err? ==> r.error == TypeError
    {
      var w := Where(cameras, cameraName);
      if |w| == 1 then
        assert w[0] in w;
        Ok(w[0])
      else
        assert |w| >= 2 ==> w[0] in w && w[1] in w;
        Err(TypeError)
    }

    /** The zone `_local2ISO` stores in `self.tz`: the camera's declared
        `timezone` property when there is one, otherwise the zone derived
        from its name; a failed derivation raises before `self.tz` is set. */
    function ZoneOf(cameraName: string): (r: Result<string>)
      requires Valid()
      ensures r.Err? ==> r.error == TypeError || r.error == IndexError || r.error.KeyError?
      ensures r.Ok? ==> CameraIndex(cameraName).Ok?
      ensures r.Ok? ==> var i := CameraIndex(cameraName).value;
        i < |assets| && (assets[i].timezone == Some(r.value) || (assets[i].timezone.None? && r.value in Timezones.Zones))
    {
      match CameraIndex(cameraName)
      case Err(e) => Err(e)
      case Ok(i) =>
        match assets[i].timezone
        case Some(zone) => Ok(zone)
        case None => GeoDb.DeriveTimezone(cameraName)
    }

    /** The UTC instant of a local `yyyymmddHHMM` time at the camera: the
        zone, then the local datetime, then the conversion, which overflows
        outside the years 1 to 9999. */
    function UtcBound(localTime: string, cameraName: string, toUtc: Conversion): (r: Result<DateTime>)
      requires Valid()
      ensures ZoneOf(cameraName).Err? ==> r == Err(ZoneOf(cameraName).error)
      ensures ZoneOf(cameraName).Ok? && ParseLocal(localTime).Err? ==> r == Err(LibraryValueError)
      ensures r.Ok? ==> ZoneOf(cameraName).Ok? && ParseLocal(localTime).Ok?
      ensures r.Ok? ==> r.value == toUtc(ZoneOf(cameraName).value, ParseLocal(localTime).value) && IsValid(r.value)
      ensures r.Err? && ZoneOf(cameraName).Ok? && ParseLocal(localTime).Ok? ==> r.error == OverflowError
      ensures (ZoneOf(cameraName).Ok? && ParseLocal(localTime).Ok? &&
        IsValid(toUtc(ZoneOf(cameraName).value, ParseLocal(localTime).value))) ==> r.Ok?
    {
      match ZoneOf(cameraName)
      case Err(e) => Err(e)
      case Ok(zone) =>
        match ParseLocal(localTime)
        case Err(e) => Err(e)
        case Ok(local) =>
          var utc := toUtc(zone, local);
          if IsValid(utc) then Ok(utc) else Err(OverflowError)
    }

    /** `_local2ISO`: the ISO text of the UTC instant. Reading it back at
        the fixed offsets `_check_date_range` uses gives that instant. */
    function IsoBound(localTime: string, cameraName: string, toUtc: Conversion): (r: Result<string>)
      requires Valid()
      ensures r.Err? <==> UtcBound(localTime, cameraName, toUtc).Err?
      ensures r.Err? ==> r.error == UtcBound(localTime, cameraName, toUtc).error
      ensures r.Ok? ==> |r.value| == 25 && ParseIso(r.value) == Ok(UtcBound(localTime, cameraName, toUtc).value)
    {
      match UtcBound(localTime, cameraName, toUtc)
      case Err(e) => Err(e)
      case Ok(utc) =>
        IsoRoundTrip(utc);
        Ok(IsoFormat(utc))
    }

    /** `_local2ISO` as the source runs it: it sets `self.tz` as soon as
        the zone is known, before the local time is read. */
    method Local2Iso(localTime: string, cameraName: string, toUtc: Conversion) returns (r: Result<string>)
      requires Valid()
      modifies this
      ensures r == IsoBound(localTime, cameraName, toUtc)
      ensures tz == if ZoneOf(cameraName).Ok? then Some(ZoneOf(cameraName).value) else old(tz)
    {
      var index := CameraIndex(cameraName);
      if index.Err? {
        return Err(index.error);
      }
      var i := index.value;
      match assets[i].timezone {
        case Some(zone) =>
          tz := Some(zone);
        case None =>
          var derived := GeoDb.DeriveTimezone(cameraName);
          if derived.Err? {
            return Err(derived.error);
          }
          tz := Some(derived.value);
      }
      var local := ParseLocal(localTime);
      if local.Err? {
        return Err(local.error);
      }
      var utc := toUtc(tz.value, local.value);
      if !IsValid(utc) {
        return Err(OverflowError);
      }
      IsoRoundTrip(utc);
      r := Ok(IsoFormat(utc));
    }

    // -------------------------------------------------------------------
    // The range check
    // -------------------------------------------------------------------

    /** The available range as datetimes: `get_inventory`'s two strings
        read at the ISO offsets; the NaN pair of an empty inventory cannot
        be sliced. */
    function AvailableRange(cameraName: string, productName: string, inventoryFor: string -> InventoryResponse): (r: Result<(DateTime, DateTime)>)
      requires Valid()
      ensures Inventory(cameraName, productName, inventoryFor).Err? ==>
        r == Err(Inventory(cameraName, productName, inventoryFor).error)
      ensures Inventory(cameraName, productName, inventoryFor) == Ok(NoData) ==> r == Err(TypeError)
      ensures Inventory(cameraName, productName, inventoryFor).Ok? && Inventory(cameraName, productName, inventoryFor).value.Span? ==>
        var span := Inventory(cameraName, productName, inventoryFor).value;
        && (r.Ok? <==> ParseIso(span.first).Ok? && ParseIso(span.last).Ok?)
        && (r.Ok? ==> r.value == (ParseIso(span.first).value, ParseIso(span.last).value))
        && (ParseIso(span.first).Err? ==> r == Err(ParseIso(span.first).error))
        && (ParseIso(span.first).Ok? && ParseIso(span.last).Err? ==> r == Err(ParseIso(span.last).error))
    {
      match Inventory(cameraName, productName, inventoryFor)
      case Err(e) => Err(e)
      case Ok(NoData) => Err(TypeError)
      case Ok(Span(first, last)) =>
        match ParseIso(first)
        case Err(e) => Err(e)
        case Ok(d0) =>
          match ParseIso(last)
          case Err(e) => Err(e)
          case Ok(d1) => Ok((d0, d1))
    }

    /** `_check_date_range`, in the source's order: both bounds converted
        to ISO text and read back, the inventory fetched and read, then
        the inclusive comparison. */
    function RangeCheck(cameraName: string, productName: string, start: string, stop: string,
                        toUtc: Conversion, inventoryFor: string -> InventoryResponse): (r: Outcome)
      requires Valid()
      ensures UtcBound(start, cameraName, toUtc).Err? ==> r == Fail(UtcBound(start, cameraName, toUtc).error)
      ensures UtcBound(start, cameraName, toUtc).Ok? && UtcBound(stop, cameraName, toUtc).Err? ==>
        r == Fail(UtcBound(stop, cameraName, toUtc).error)
      ensures (UtcBound(start, cameraName, toUtc).Ok? && UtcBound(stop, cameraName, toUtc).Ok? &&
        AvailableRange(cameraName, productName, inventoryFor).Err?) ==>
        r == Fail(AvailableRange(cameraName, productName, inventoryFor).error)
      ensures r == Pass <==>
        UtcBound(start, cameraName, toUtc).Ok? && UtcBound(stop, cameraName, toUtc).Ok? &&
        AvailableRange(cameraName, productName, inventoryFor).Ok? &&
        var range := AvailableRange(cameraName, productName, inventoryFor).value;
        InRange(UtcBound(start, cameraName, toUtc).value, range.0, range.1) &&
        InRange(UtcBound(stop, cameraName, toUtc).value, range.0, range.1)
      ensures (UtcBound(start, cameraName, toUtc).Ok? && UtcBound(stop, cameraName, toUtc).Ok? &&
        AvailableRange(cameraName, productName, inventoryFor).Ok? && r != Pass) ==> r == Fail(ValueError(RangeMessage))
    {
      match IsoBound(start, cameraName, toUtc)
      case Err(e) => Fail(e)
      case Ok(starts) =>
        match IsoBound(stop, cameraName, toUtc)
        case Err(e) => Fail(e)
        case Ok(stops) =>
          match ParseIso(starts)
          case Err(e) => Fail(e)
          case Ok(s0) =>
            match ParseIso(stops)
            case Err(e) => Fail(e)
            case Ok(s1) =>
              match AvailableRange(cameraName, productName, inventoryFor)
              case Err(e) => Fail(e)
              case Ok(range) => CompareRange(s0, s1, range.0, range.1)
    }

    /** `_check_date_range` as the source runs it; each conversion sets
        `self.tz`. */
    method CheckDateRange(cameraName: string, productName: string, start: string, stop: string,
                          toUtc: Conversion, inventoryFor: string -> InventoryResponse) returns (r: Outcome)
      requires Valid()
      modifies this
      ensures r == RangeCheck(cameraName, productName, start, stop, toUtc, inventoryFor)
      ensures tz == if ZoneOf(cameraName).Ok? then Some(ZoneOf(cameraName).value) else old(tz)
    {
      var starts := Local2Iso(start, cameraName, toUtc);
      if starts.Err? {
        return Fail(starts.error);
      }
      var stops := Local2Iso(stop, cameraName, toUtc);
      if stops.Err? {
        return Fail(stops.error);
      }
      // the ISO text of a converted bound always reads back
      var s0 := ParseIso(starts.value);
      var s1 := ParseIso(stops.value);
      assert s0.Ok? && s1.Ok?;
      var inventory := GetInventory(cameraName, productName, inventoryFor);
      if inventory.Err? {
        return Fail(inventory.error);
      }
      if inventory.value.NoData? {
        return Fail(TypeError);
      }
      var d0 := ParseIso(inventory.value.first);
      if d0.Err? {
        return Fail(d0.error);
      }
      var d1 := ParseIso(inventory.value.last);
      if d1.Err? {
        return Fail(d1.error);
      }
      r := CompareRange(s0.value, s1.value, d0.value, d1.value);
    }

    // -------------------------------------------------------------------
    // `download`
    // -------------------------------------------------------------------

    /** The four checks before the range check all pass. */
    predicate ChecksBeforeRange(cameraName: string, productName: string, start: string, stop: string)
      requires Valid()
    {
      && CheckCameraName(cameraName) == Pass
      && CheckProductName(cameraName, productName) == Pass
      && CheckDateFormat(start, "start") == Pass
      && CheckDateFormat(stop, "stop") == Pass
    }

    /** The validation of `download`: camera, product, start format, stop
        format, range; the first failure is raised. */
    function Validate(cameraName: string, productName: string, start: string, stop: string,
                      toUtc: Conversion, inventoryFor: string -> InventoryResponse): (r: Outcome)
      requires Valid()
      ensures r == Pass <==> (ChecksBeforeRange(cameraName, productName, start, stop) &&
        RangeCheck(cameraName, productName, start, stop, toUtc, inventoryFor) == Pass)
    {
      if CheckCameraName(cameraName).Fail? then CheckCameraName(cameraName)
      else if CheckProductName(cameraName, productName).Fail? then CheckProductName(cameraName, productName)
      else if CheckDateFormat(start, "start").Fail? then CheckDateFormat(start, "start")
      else if CheckDateFormat(stop, "stop").Fail? then CheckDateFormat(stop, "stop")
      else RangeCheck(cameraName, productName, start, stop, toUtc, inventoryFor)
    }

    /** Once the checks pass, the conversions and the slug lookup that
        `download` repeats after them cannot fail, and the range check's
        own inventory request succeeded. */
    lemma PassedChecks(cameraName: string, productName: string, start: string, stop: string,
                       toUtc: Conversion, inventoryFor: string -> InventoryResponse)
      requires Valid()
      requires Validate(cameraName, productName, start, stop, toUtc, inventoryFor) == Pass
      ensures ZoneOf(cameraName).Ok?
      ensures IsoBound(start, cameraName, toUtc).Ok? && IsoBound(stop, cameraName, toUtc).Ok?
      ensures ServiceSlug(cameraName, productName).Ok?
      ensures InventoryRows(inventoryFor(ServiceSlug(cameraName, productName).value)).Ok?
    {
      assert RangeCheck(cameraName, productName, start, stop, toUtc, inventoryFor) == Pass;
      assert Inventory(cameraName, productName, inventoryFor).Ok?;
    }

    /** `download`: the checks, the conversions, the catalogue walk and
        inventory request, the element pages, the filter, and the download
        from the files on disk `files` to the files on disk `saved`. The
        range check and the later `_get_service_slug` each request the
        inventory; `inventoryFor` answers the first and `reinventoryFor`
        the second, which the server may answer differently. */
    method Download(cameraName: string, productName: string, start: string, stop: string, interval: int,
                    saveDir: string, toUtc: Conversion, inventoryFor: string -> InventoryResponse,
                    reinventoryFor: string -> InventoryResponse,
                    pages: seq<Page>, server: map<string, Bytes>, files: map<string, Bytes>)
      returns (r: Result<seq<string>>, saved: map<string, Bytes>)
      requires Valid()
      requires Terminates(pages)
      modifies this
      ensures var check := Validate(cameraName, productName, start, stop, toUtc, inventoryFor);
        check.Fail? ==> r == Err(check.error) && saved == files
      ensures var check := Validate(cameraName, productName, start, stop, toUtc, inventoryFor);
        var second := ServiceInventory(cameraName, productName, reinventoryFor);
        check == Pass && second.Err? ==> r == Err(second.error) && saved == files
      ensures var check := Validate(cameraName, productName, start, stop, toUtc, inventoryFor);
        var second := ServiceInventory(cameraName, productName, reinventoryFor);
        var filtered := Filtered(Collected(pages), interval);
        check == Pass && second.Ok? && filtered.Err? ==> r == Err(filtered.error) && saved == files
      ensures var check := Validate(cameraName, productName, start, stop, toUtc, inventoryFor);
        var second := ServiceInventory(cameraName, productName, reinventoryFor);
        var filtered := Filtered(Collected(pages), interval);
        check == Pass && second.Ok? && filtered.Ok? ==>
          var run := Imagery.Download(files, saveDir, Urls(filtered.value), server);
          r == run.result && saved == run.files
      ensures tz == if ChecksBeforeRange(cameraName, productName, start, stop) && ZoneOf(cameraName).Ok?
        then Some(ZoneOf(cameraName).value) else old(tz)
    {
      var check := RunChecks(cameraName, productName, start, stop, toUtc, inventoryFor);
      if check.Fail? {
        return Err(check.error), files;
      }
      var filtered := FilteredElements(cameraName, productName, start, stop, interval, toUtc, inventoryFor, reinventoryFor, pages);
      if filtered.Err? {
        return Err(filtered.error), files;
      }
      var requested;
      r, saved, requested := DownloadImagery(files, filtered.value, saveDir, server);
    }

    /** The checks at the head of `download`, each run only when those
        before it passed. */
    method RunChecks(cameraName: string, productName: string, start: string, stop: string,
                     toUtc: Conversion, inventoryFor: string -> InventoryResponse) returns (r: Outcome)
      requires Valid()
      modifies this
      ensures r == Validate(cameraName, productName, start, stop, toUtc, inventoryFor)
      ensures tz == if ChecksBeforeRange(cameraName, productName, start, stop) && ZoneOf(cameraName).Ok?
        then Some(ZoneOf(cameraName).value) else old(tz)
    {
      r := CheckCameraName(cameraName);
      if r.Fail? {
        return;
      }
      r := CheckProductName(cameraName, productName);
      if r.Fail? {
        return;
      }
      r := CheckDateFormat(start, "start");
      if r.Fail? {
        return;
      }
      r := CheckDateFormat(stop, "stop");
      if r.Fail? {
        return;
      }
      r := CheckDateRange(cameraName, productName, start, stop, toUtc, inventoryFor);
    }

    /** The part of `download` after the checks: the bounds converted, the
        slug looked up and its inventory requested again, the pages read
        and filtered. A failed second inventory request ends it. */
    method FilteredElements(cameraName: string, productName: string, start: string, stop: string, interval: int,
                            toUtc: Conversion, inventoryFor: string -> InventoryResponse,
                            reinventoryFor: string -> InventoryResponse, pages: seq<Page>)
      returns (r: Result<seq<Element>>)
      requires Valid()
      requires Validate(cameraName, productName, start, stop, toUtc, inventoryFor) == Pass
      requires Terminates(pages)
      modifies this
      ensures ServiceInventory(cameraName, productName, reinventoryFor).Err? ==>
        r == Err(ServiceInventory(cameraName, productName, reinventoryFor).error)
      ensures ServiceInventory(cameraName, productName, reinventoryFor).Ok? ==> r == Filtered(Collected(pages), interval)
      ensures tz == Some(ZoneOf(cameraName).value)
    {
      PassedChecks(cameraName, productName, start, stop, toUtc, inventoryFor);
      var startIso := Local2Iso(start, cameraName, toUtc);
      var stopIso := Local2Iso(stop, cameraName, toUtc);
      var feeds := GetCameraFeeds(assets, cameraName);
      assert feeds.Ok?;
      var products := GetCameraProducts(feeds.value, RawVideoFeed);
      assert products.Ok?;
      var slug := SelectServiceSlug(products.value, productName);
      assert slug.Ok?;
      assert startIso.Ok? && stopIso.Ok?;
      var rows := InventoryRows(reinventoryFor(slug.value));
      if rows.Err? {
        return Err(rows.error);
      }
      var elements, requests := FetchElements(ApiBase, slug.value, startIso.value, stopIso.value, pages);
      r := FilterByInterval(elements, interval);
    }
  
    // -------------------------------------------------------------------
    // Lemmas
    // -------------------------------------------------------------------

    /** A camera no asset is labelled with is refused by every public
        operation with the camera message, and has no index. */
    lemma UnknownCameraRejected(cameraName: string, productName: string, start: string, stop: string,
                                toUtc: Conversion, inventoryFor: string -> InventoryResponse)
      requires Valid()
      requires forall i :: 0 <= i < |assets| ==> assets[i].name != cameraName
      ensures Products(cameraName) == Err(ValueError(CameraMessage))
      ensures CheckProductName(cameraName, productName) == Fail(ValueError(CameraMessage))
      ensures Inventory(cameraName, productName, inventoryFor) == Err(ValueError(CameraMessage))
      ensures Validate(cameraName, productName, start, stop, toUtc, inventoryFor) == Fail(ValueError(CameraMessage))
      ensures ZoneOf(cameraName) == Err(TypeError)
    {
      assert forall i :: 0 <= i < |cameras| ==> cameras[i] != cameraName;
    }

    /** The checks of `download` run in order, and the first that fails
        decides the error. */
    lemma ValidationOrder(cameraName: string, productName: string, start: string, stop: string,
                          toUtc: Conversion, inventoryFor: string -> InventoryResponse)
      requires Valid()
      ensures var v := Validate(cameraName, productName, start, stop, toUtc, inventoryFor);
        && (CheckCameraName(cameraName).Fail? ==> v == Fail(ValueError(CameraMessage)))
        && (CheckCameraName(cameraName) == Pass && CheckProductName(cameraName, productName).Fail? ==>
              v == CheckProductName(cameraName, productName))
        && ((CheckCameraName(cameraName) == Pass && CheckProductName(cameraName, productName) == Pass &&
             CheckDateFormat(start, "start").Fail?) ==> v == Fail(ValueError(FormatMessage("start"))))
        && ((CheckCameraName(cameraName) == Pass && CheckProductName(cameraName, productName) == Pass &&
             CheckDateFormat(start, "start") == Pass && CheckDateFormat(stop, "stop").Fail?) ==>
              v == Fail(ValueError(FormatMessage("stop"))))
        && (ChecksBeforeRange(cameraName, productName, start, stop) ==>
              v == RangeCheck(cameraName, productName, start, stop, toUtc, inventoryFor))
    {
    }

    /** A check that fails before the range check leaves nothing for the
        server to decide: neither the conversion nor the inventory matters. */
    lemma EarlyFailureIgnoresServer(cameraName: string, productName: string, start: string, stop: string,
                                    toUtc: Conversion, inventoryFor: string -> InventoryResponse,
                                    toUtc': Conversion, inventoryFor': string -> InventoryResponse)
      requires Valid()
      requires !ChecksBeforeRange(cameraName, productName, start, stop)
      ensures Validate(cameraName, productName, start, stop, toUtc, inventoryFor) ==
              Validate(cameraName, productName, start, stop, toUtc', inventoryFor')
      ensures Validate(cameraName, productName, start, stop, toUtc, inventoryFor).Fail?
    {
    }

    /** A start bound that is not 12 characters long is reported as the
        start bound's format error, whatever the stop bound is. */
    lemma ShortStartReported(cameraName: string, productName: string, start: string, stop: string,
                             toUtc: Conversion, inventoryFor: string -> InventoryResponse)
      requires Valid()
      requires CheckCameraName(cameraName) == Pass && CheckProductName(cameraName, productName) == Pass
      requires |start| != 12
      ensures Validate(cameraName, productName, start, stop, toUtc, inventoryFor) == Fail(ValueError(FormatMessage("start")))
    {
    }

    /** A declared `timezone` property is used as it is, before any
        derivation from the name. */
    lemma DeclaredZoneFirst(cameraName: string, i: int)
      requires Valid()
      requires 0 <= i < |assets| && assets[i].name == cameraName
      requires forall j :: 0 <= j < |assets| && j != i ==> assets[j].name != cameraName
      requires assets[i].timezone.Some?
      ensures ZoneOf(cameraName) == Ok(assets[i].timezone.value)
    {
      assert cameras[i] == cameraName;
    }

    /** Without a declared `timezone`, the zone comes from the name. */
    lemma NamedZoneOtherwise(cameraName: string, i: int)
      requires Valid()
      requires 0 <= i < |assets| && assets[i].name == cameraName
      requires forall j :: 0 <= j < |assets| && j != i ==> assets[j].name != cameraName
      requires assets[i].timezone.None?
      ensures ZoneOf(cameraName) == GeoDb.DeriveTimezone(cameraName)
    {
      assert cameras[i] == cameraName;
    }

    /** The documented fallback to UTC never happens: "UTC" is chosen only
        when the camera declares it. */
    lemma NoUtcFallback(cameraName: string)
      requires Valid()
      requires ZoneOf(cameraName) == Ok("UTC")
      ensures exists i :: 0 <= i < |assets| && assets[i].name == cameraName && assets[i].timezone == Some("UTC")
    {
      var i := CameraIndex(cameraName).value;
      assert assets[i].name == cameraName;
    }

    /** Two assets with the same label pass the camera check, but the
        camera has no single index, so its times cannot be converted. */
    lemma DuplicateCameraHasNoZone(cameraName: string, i: int, j: int)
      requires Valid()
      requires 0 <= i < j < |assets| && assets[i].name == cameraName && assets[j].name == cameraName
      ensures CheckCameraName(cameraName) == Pass
      ensures ZoneOf(cameraName) == Err(TypeError)
    {
      assert cameras[i] == cameraName && cameras[j] == cameraName;
    }

    /** An inventory without rows fails the range check with the TypeError
        of slicing a NaN, once both bounds are converted. */
    lemma EmptyInventoryFailsRange(cameraName: string, productName: string, start: string, stop: string,
                                   toUtc: Conversion, inventoryFor: string -> InventoryResponse)
      requires Valid()
      requires UtcBound(start, cameraName, toUtc).Ok? && UtcBound(stop, cameraName, toUtc).Ok?
      requires Inventory(cameraName, productName, inventoryFor) == Ok(NoData)
      ensures RangeCheck(cameraName, productName, start, stop, toUtc, inventoryFor) == Fail(TypeError)
    {
    }
}
}
