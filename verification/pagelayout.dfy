/** The page layout that the ingestion pipeline reads from a Document
    Intelligence analysis: figure polygons grouped by page, the size and
    unit of each page, and the two combined (the reader's
    `extract_fig_polygons_by_page`, `extract_pages_info` and
    `combine_page_info_and_polygons`), and the stricter readers
    `create_figures`, `extract_page_polygons` and `extract_page_info`.
    A dict keyed by page number is a list of slots in insertion order. */
module PageLayout {
  import opened Wrappers
  import opened Json

  /** A value that can key a dict: a list or a dict cannot. */
  predicate Hashable(v: Value) {
    !v.Arr? && !v.Obj?
  }

  /** Iterating a value: the model reads lists only. */
  function Items(v: Value): (r: Result<seq<Value>>)
    ensures r.Success? <==> v.Arr?
    ensures r.Success? ==> r.value == v.items
  {
    if v.Arr? then Success(v.items) else Failure(TypeMismatch)
  }

  /** `v.get(key, default)`: only a dict has `get`. */
  function GetFrom(v: Value, key: string, default: Value): (r: Result<Value>)
    ensures r.Success? <==> v.Obj?
    ensures r.Success? ==> r.value == GetOr(v, key, default)
  {
    if v.Obj? then Success(GetOr(v, key, default)) else Failure(TypeMismatch)
  }

  // ===========================================================================
  // Dicts keyed by page number
  // ===========================================================================

  datatype Slot<V> = Slot(page: Value, val: V)

  function PagesOf<V>(t: seq<Slot<V>>): (r: seq<Value>)
    ensures |r| == |t| && forall i :: 0 <= i < |t| ==> r[i] == t[i].page
  {
    if t == [] then [] else [t[0].page] + PagesOf(t[1..])
  }

  /** `t.get(page)`. */
  function Find<V>(t: seq<Slot<V>>, page: Value): Option<V> {
    if t == [] then None
    else if t[0].page == page then Some(t[0].val)
    else Find(t[1..], page)
  }

  /** `t[page] = v`: an existing page keeps its place, a new one goes last. */
  function Store<V>(t: seq<Slot<V>>, page: Value, v: V): seq<Slot<V>> {
    if t == [] then [Slot(page, v)]
    else if t[0].page == page then [Slot(page, v)] + t[1..]
    else [t[0]] + Store(t[1..], page, v)
  }

  /** Every page appears once. */
  predicate Distinct<V>(t: seq<Slot<V>>) {
    forall i, j :: 0 <= i < j < |t| ==> t[i].page != t[j].page
  }

  /** Storing maps the page to the value and leaves every other page
      alone. */
  lemma {:induction false} StoreFind<V>(t: seq<Slot<V>>, page: Value, v: V, q: Value)
    ensures Find(Store(t, page, v), q) == if q == page then Some(v) else Find(t, q)
  {
    if t != [] && t[0].page != page {
      StoreFind(t[1..], page, v, q);
    }
  }

  /** The pages after storing are the old ones, then the page if it is
      new. */
  lemma {:induction false} StorePages<V>(t: seq<Slot<V>>, page: Value, v: V)
    ensures PagesOf(Store(t, page, v)) == if page in PagesOf(t) then PagesOf(t) else PagesOf(t) + [page]
  {
    if t != [] && t[0].page != page {
      var rest := t[1..];
      StorePages(rest, page, v);
      assert page in PagesOf(t) <==> page in PagesOf(rest);
      assert [t[0].page] + (PagesOf(rest) + [page]) == PagesOf(t) + [page];
    }
  }

  /** Storing never makes a page come twice. */
  lemma StoreDistinct<V>(t: seq<Slot<V>>, page: Value, v: V)
    requires Distinct(t)
    ensures Distinct(Store(t, page, v))
  {
    StorePages(t, page, v);
    var r := Store(t, page, v);
    var ps := PagesOf(r);
    forall i, j | 0 <= i < j < |r| ensures r[i].page != r[j].page {
      assert r[i].page == ps[i] && r[j].page == ps[j];
      if j < |t| {
        assert ps[i] == PagesOf(t)[i] && ps[j] == PagesOf(t)[j];
      } else {
        assert ps[i] == PagesOf(t)[i];
      }
    }
  }

  /** A page is found exactly when it is one of the pages. */
  lemma {:induction false} FindPresent<V>(t: seq<Slot<V>>, page: Value)
    ensures Find(t, page).Some? <==> page in PagesOf(t)
  {
    if t != [] {
      FindPresent(t[1..], page);
      assert PagesOf(t) == [t[0].page] + PagesOf(t[1..]);
    }
  }

  // ===========================================================================
  // extract_fig_polygons_by_page
  // ===========================================================================

  type Polygons = seq<Slot<seq<Value>>>

  /** The polygons already stored for a page. */
  function Stored(t: Polygons, page: Value): seq<Value> {
    if Find(t, page).Some? then Find(t, page).value else []
  }

  /** One region: its polygon (`[]` when absent) is appended to its page's
      list, created on first use; a region without a page number is
      skipped. */
  function AddRegion(t: Polygons, region: Value): Result<Polygons> {
    var page :- GetFrom(region, "pageNumber", Null);
    if page == Null then Success(t)
    else if !Hashable(page) then Failure(TypeMismatch)
    else Success(Store(t, page, Stored(t, page) + [GetOr(region, "polygon", Arr([]))]))
  }

  /** One figure: its bounding regions (`[]` when absent), in order. */
  function AddFigure(t: Polygons, figure: Value): Result<Polygons> {
    var regions :- GetFrom(figure, "boundingRegions", Arr([]));
    var rs :- Items(regions);
    Loop(AddRegion, t, rs)
  }

  /** `extract_fig_polygons_by_page`. */
  function FigPolygonsByPage(data: Value): Result<Polygons> {
    var figures :- GetFrom(data, "figures", Arr([]));
    var figs :- Items(figures);
    Loop(AddFigure, [], figs)
  }

  /** The bounding regions of all figures, figure by figure. */
  function CollectRegions(acc: seq<Value>, figure: Value): Result<seq<Value>> {
    var regions :- GetFrom(figure, "boundingRegions", Arr([]));
    var rs :- Items(regions);
    Success(acc + rs)
  }

  /** The polygons of the regions on a page, in order. */
  function PolygonsOn(regions: seq<Value>, page: Value): seq<Value>
    decreases |regions|
  {
    if regions == [] then []
    else
      var r := regions[|regions| - 1];
      PolygonsOn(regions[..|regions| - 1], page)
      + (if r.Obj? && GetOr(r, "pageNumber", Null) == page then [GetOr(r, "polygon", Arr([]))] else [])
  }

  /** Grouping figure by figure is grouping their regions in one run. */
  lemma {:induction false} FiguresAsRegions(t: Polygons, figs: seq<Value>)
    requires Loop(AddFigure, t, figs).Success?
    ensures Loop(CollectRegions, [], figs).Success?
    ensures Loop(AddFigure, t, figs) == Loop(AddRegion, t, Loop(CollectRegions, [], figs).value)
    decreases |figs|
  {
    if figs != [] {
      var front := figs[..|figs| - 1];
      var f := figs[|figs| - 1];
      FiguresAsRegions(t, front);
      var before := Loop(CollectRegions, [], front).value;
      LoopAppend(AddRegion, t, before, GetOr(f, "boundingRegions", Arr([])).items);
    }
  }

  /** The region a step of the run adds, and the run before it. */
  lemma AddRegionStep(t: Polygons, rs: seq<Value>)
    requires rs != [] && Loop(AddRegion, t, rs).Success?
    ensures Loop(AddRegion, t, rs[..|rs| - 1]).Success?
    ensures var mid := Loop(AddRegion, t, rs[..|rs| - 1]).value;
            var region := rs[|rs| - 1];
            var p := GetOr(region, "pageNumber", Null);
            region.Obj?
            && Loop(AddRegion, t, rs).value
               == if p == Null then mid else Store(mid, p, Stored(mid, p) + [GetOr(region, "polygon", Arr([]))])
  {
  }

  /** After the regions, a page with a number holds the polygons it held,
      then those of its regions in order. */
  lemma {:induction false} AddRegionsStored(t: Polygons, rs: seq<Value>, page: Value)
    requires Loop(AddRegion, t, rs).Success? && page != Null
    ensures Stored(Loop(AddRegion, t, rs).value, page) == Stored(t, page) + PolygonsOn(rs, page)
    decreases |rs|
  {
    if rs != [] {
      var front := rs[..|rs| - 1];
      var region := rs[|rs| - 1];
      AddRegionStep(t, rs);
      AddRegionsStored(t, front, page);
      var mid := Loop(AddRegion, t, front).value;
      var p := GetOr(region, "pageNumber", Null);
      if p != Null {
        StoreFind(mid, p, Stored(mid, p) + [GetOr(region, "polygon", Arr([]))], page);
      }
    }
  }

  /** After the regions, a page is present exactly when it was or one of
      the regions lies on it. */
  lemma {:induction false} AddRegionsPresent(t: Polygons, rs: seq<Value>, page: Value)
    requires Loop(AddRegion, t, rs).Success? && page != Null
    ensures Find(Loop(AddRegion, t, rs).value, page).Some? <==> Find(t, page).Some? || PolygonsOn(rs, page) != []
    decreases |rs|
  {
    if rs != [] {
      var front := rs[..|rs| - 1];
      var region := rs[|rs| - 1];
      AddRegionStep(t, rs);
      AddRegionsPresent(t, front, page);
      var mid := Loop(AddRegion, t, front).value;
      var p := GetOr(region, "pageNumber", Null);
      if p != Null {
        StoreFind(mid, p, Stored(mid, p) + [GetOr(region, "polygon", Arr([]))], page);
      }
    }
  }

  /** A region without a page number stores nothing. */
  lemma {:induction false} AddRegionsNull(t: Polygons, rs: seq<Value>)
    requires Loop(AddRegion, t, rs).Success?
    ensures Find(Loop(AddRegion, t, rs).value, Null) == Find(t, Null)
    decreases |rs|
  {
    if rs != [] {
      var front := rs[..|rs| - 1];
      var region := rs[|rs| - 1];
      AddRegionStep(t, rs);
      AddRegionsNull(t, front);
      var mid := Loop(AddRegion, t, front).value;
      var p := GetOr(region, "pageNumber", Null);
      if p != Null {
        StoreFind(mid, p, Stored(mid, p) + [GetOr(region, "polygon", Arr([]))], Null);
      }
    }
  }

  /** The regions never make a page come twice. */
  lemma {:induction false} AddRegionsDistinct(t: Polygons, rs: seq<Value>)
    requires Loop(AddRegion, t, rs).Success? && Distinct(t)
    ensures Distinct(Loop(AddRegion, t, rs).value)
    decreases |rs|
  {
    if rs != [] {
      var front := rs[..|rs| - 1];
      var region := rs[|rs| - 1];
      AddRegionStep(t, rs);
      AddRegionsDistinct(t, front);
      var mid := Loop(AddRegion, t, front).value;
      var p := GetOr(region, "pageNumber", Null);
      if p != Null {
        StoreDistinct(mid, p, Stored(mid, p) + [GetOr(region, "polygon", Arr([]))]);
      }
    }
  }

  /** `extract_fig_polygons_by_page` groups the polygons of all figures'
      regions by page, in figure-then-region order: a page is a key
      exactly when some region lies on it, and regions without a page
      number are left out; data without figures gives `{}`. */
  lemma FigPolygonsByPageFacts(data: Value, page: Value)
    requires FigPolygonsByPage(data).Success?
    ensures var r := FigPolygonsByPage(data).value;
            var figs := Loop(CollectRegions, [], GetOr(data, "figures", Arr([])).items);
            var regions := if figs.Success? then figs.value else [];
            figs.Success? && Distinct(r)
            && (page != Null ==> Stored(r, page) == PolygonsOn(regions, page)
                                 && (Find(r, page).Some? <==> PolygonsOn(regions, page) != []))
            && Find(r, Null).None?
  {
    var figs := GetOr(data, "figures", Arr([])).items;
    FiguresAsRegions([], figs);
    var regions := Loop(CollectRegions, [], figs).value;
    AddRegionsDistinct([], regions);
    AddRegionsNull([], regions);
    if page != Null {
      AddRegionsStored([], regions, page);
      AddRegionsPresent([], regions, page);
    }
  }

  lemma NoFigures(data: Value)
    requires data.Obj? && Get(data, "figures").None?
    ensures FigPolygonsByPage(data) == Success([])
  {
  }

  /** The loops of `extract_fig_polygons_by_page`. */
  method ExtractFigPolygonsByPage(data: Value) returns (r: Result<Polygons>)
    ensures r == FigPolygonsByPage(data)
  {
    if !data.Obj? {
      return Failure(TypeMismatch);
    }
    var figures := GetOr(data, "figures", Arr([]));
    if !figures.Arr? {
      return Failure(TypeMismatch);
    }
    var figs := figures.items;
    var byPage: Polygons := [];
    for i := 0 to |figs|
      invariant Loop(AddFigure, [], figs[..i]) == Success(byPage)
    {
      var figure := figs[i];
      LoopSnoc(AddFigure, [], figs, i, byPage);
      if !figure.Obj? || !GetOr(figure, "boundingRegions", Arr([])).Arr? {
        LoopPrefixFailure(AddFigure, [], figs, i + 1);
        return Failure(TypeMismatch);
      }
      var rs := GetOr(figure, "boundingRegions", Arr([])).items;
      var t := byPage;
      for j := 0 to |rs|
        invariant Loop(AddRegion, t, rs[..j]) == Success(byPage)
      {
        var region := rs[j];
        LoopSnoc(AddRegion, t, rs, j, byPage);
        if !region.Obj? {
          LoopPrefixFailure(AddRegion, t, rs, j + 1);
          LoopPrefixFailure(AddFigure, [], figs, i + 1);
          return Failure(TypeMismatch);
        }
        var page := GetOr(region, "pageNumber", Null);
        if page != Null {
          if !Hashable(page) {
            LoopPrefixFailure(AddRegion, t, rs, j + 1);
            LoopPrefixFailure(AddFigure, [], figs, i + 1);
            return Failure(TypeMismatch);
          }
          byPage := Store(byPage, page, Stored(byPage, page) + [GetOr(region, "polygon", Arr([]))]);
        }
      }
      assert rs[..|rs|] == rs;
    }
    assert figs[..|figs|] == figs;
    r := Success(byPage);
  }

  // ===========================================================================
  // Page sizes: extract_pages_info and extract_page_info
  // ===========================================================================

  /** `{'width': ..., 'height': ..., 'unit': ...}` of a page. */
  datatype PageInfo = PageInfo(width: Value, height: Value, unit: Value)

  type Pages = seq<Slot<PageInfo>>

  /** What a page contributes: a page number and its info, or nothing. */
  type PageReader = Value -> Result<Option<Slot<PageInfo>>>

  /** `pages_info[page_number] = {...}` for what a page contributes. */
  function AddPage(read: PageReader, t: Pages, page: Value): Result<Pages> {
    var slot :- read(page);
    if slot.None? then Success(t) else Success(Store(t, slot.value.page, slot.value.val))
  }

  function AddPages(read: PageReader, t: Pages, pages: seq<Value>): Result<Pages>
    decreases |pages|
  {
    if pages == [] then Success(t)
    else
      var front :- AddPages(read, t, pages[..|pages| - 1]);
      AddPage(read, front, pages[|pages| - 1])
  }

  /** The info of the last page that carries a number, if any. */
  function LastInfo(read: PageReader, pages: seq<Value>, number: Value): Option<PageInfo>
    decreases |pages|
  {
    if pages == [] then None
    else
      var s := read(pages[|pages| - 1]);
      if s.Success? && s.value.Some? && s.value.value.page == number then Some(s.value.value.val)
      else LastInfo(read, pages[..|pages| - 1], number)
  }

  /** After the pages, a page number holds the info of the last page that
      carries it (a later page overwrites an earlier one), or what it held
      before; no number comes twice. */
  lemma {:induction false} AddPagesFacts(read: PageReader, t: Pages, pages: seq<Value>, number: Value)
    requires AddPages(read, t, pages).Success?
    ensures var r := AddPages(read, t, pages).value;
            Find(r, number) == (if LastInfo(read, pages, number).Some? then LastInfo(read, pages, number) else Find(t, number))
            && (Distinct(t) ==> Distinct(r))
    decreases |pages|
  {
    if pages != [] {
      var front := pages[..|pages| - 1];
      AddPagesFacts(read, t, front, number);
      var mid := AddPages(read, t, front).value;
      var s := read(pages[|pages| - 1]).value;
      if s.Some? {
        StoreFind(mid, s.value.page, s.value.val, number);
        if Distinct(t) {
          StoreDistinct(mid, s.value.page, s.value.val);
        }
      }
    }
  }

  /** A page of `extract_pages_info`: read with `get`, skipped without a
      page number. */
  function ReaderPage(page: Value): Result<Option<Slot<PageInfo>>> {
    var number :- GetFrom(page, "pageNumber", Null);
    if number == Null then Success(None)
    else if !Hashable(number) then Failure(TypeMismatch)
    else Success(Some(Slot(number, PageInfo(GetOr(page, "width", Null), GetOr(page, "height", Null),
                                             GetOr(page, "unit", Null)))))
  }

  /** `extract_pages_info`. */
  function PagesInfo(data: Value): Result<Pages> {
    var pages :- GetFrom(data, "pages", Arr([]));
    var ps :- Items(pages);
    AddPages(ReaderPage, [], ps)
  }

  /** `extract_pages_info` keys each page that has a number by that
      number, with the width, height and unit of the last page carrying
      it; pages without a number are left out, and no pages give `{}`. */
  lemma PagesInfoFacts(data: Value, number: Value)
    requires PagesInfo(data).Success?
    ensures var r := PagesInfo(data).value;
            var ps := GetOr(data, "pages", Arr([])).items;
            Distinct(r)
            && Find(r, number) == LastInfo(ReaderPage, ps, number)
            && Find(r, Null).None?
            && (Get(data, "pages").None? ==> r == [])
  {
    var ps := GetOr(data, "pages", Arr([])).items;
    AddPagesFacts(ReaderPage, [], ps, number);
    AddPagesFacts(ReaderPage, [], ps, Null);
    NoNullPage(ps);
  }

  lemma {:induction false} NoNullPage(pages: seq<Value>)
    ensures LastInfo(ReaderPage, pages, Null).None?
    decreases |pages|
  {
    if pages != [] {
      NoNullPage(pages[..|pages| - 1]);
    }
  }

  /** A page of `extract_page_info`: read by indexing, so a missing key
      raises; a `None` page number is kept as a key. */
  function AnalyzedPage(page: Value): Result<Option<Slot<PageInfo>>> {
    var number :- Index(page, "pageNumber");
    var width :- Index(page, "width");
    var height :- Index(page, "height");
    var unit :- Index(page, "unit");
    if !Hashable(number) then Failure(TypeMismatch)
    else Success(Some(Slot(number, PageInfo(width, height, unit))))
  }

  /** `extract_page_info`: the pages of `analyzeResult`, either missing
      meaning none. */
  function PageInfoOf(output: Value): Result<Pages> {
    var analyzed :- GetFrom(output, "analyzeResult", Obj([]));
    var pages :- GetFrom(analyzed, "pages", Arr([]));
    var ps :- Items(pages);
    AddPages(AnalyzedPage, [], ps)
  }

  /** `extract_page_info` fails on a page that lacks any of the four keys;
      otherwise each page number holds the info of its last page, and a
      missing `analyzeResult` or `pages` gives `{}`. */
  lemma PageInfoOfFacts(output: Value, number: Value)
    ensures var r := PageInfoOf(output);
            (output.Obj? && Get(output, "analyzeResult").None? ==> r == Success([]))
            && ((output.Obj? && GetOr(output, "analyzeResult", Obj([])).Obj?
                 && Get(GetOr(output, "analyzeResult", Obj([])), "pages").None?) ==> r == Success([]))
            && (r.Success? ==>
                  var ps := GetOr(GetOr(output, "analyzeResult", Obj([])), "pages", Arr([])).items;
                  Distinct(r.value) && Find(r.value, number) == LastInfo(AnalyzedPage, ps, number)
                  && forall i :: 0 <= i < |ps| ==> AnalyzedPage(ps[i]).Success?)
  {
    var r := PageInfoOf(output);
    if r.Success? {
      var ps := GetOr(GetOr(output, "analyzeResult", Obj([])), "pages", Arr([])).items;
      AddPagesFacts(AnalyzedPage, [], ps, number);
      AddPagesReads(AnalyzedPage, [], ps);
    }
  }

  /** A run that succeeds read every page successfully. */
  lemma {:induction false} AddPagesReads(read: PageReader, t: Pages, pages: seq<Value>)
    requires AddPages(read, t, pages).Success?
    ensures forall i :: 0 <= i < |pages| ==> read(pages[i]).Success?
    decreases |pages|
  {
    if pages != [] {
      var front := pages[..|pages| - 1];
      AddPagesReads(read, t, front);
      assert forall i :: 0 <= i < |front| ==> front[i] == pages[i];
    }
  }

  /** The loop shared by both readers. */
  method AddPagesMethod(read: PageReader, pages: seq<Value>) returns (r: Result<Pages>)
    ensures r == AddPages(read, [], pages)
  {
    var info: Pages := [];
    for i := 0 to |pages|
      invariant AddPages(read, [], pages[..i]) == Success(info)
    {
      assert pages[..i + 1][..i] == pages[..i];
      var slot := read(pages[i]);
      if slot.Failure? {
        AddPagesPrefixFailure(read, pages, i + 1);
        return Failure(slot.error);
      }
      if slot.value.Some? {
        info := Store(info, slot.value.value.page, slot.value.value.val);
      }
    }
    assert pages[..|pages|] == pages;
    r := Success(info);
  }

  lemma {:induction false} AddPagesPrefixFailure(read: PageReader, pages: seq<Value>, k: nat)
    requires k <= |pages| && AddPages(read, [], pages[..k]).Failure?
    ensures AddPages(read, [], pages) == AddPages(read, [], pages[..k])
    decreases |pages|
  {
    if k == |pages| {
      assert pages[..k] == pages;
    } else {
      var front := pages[..|pages| - 1];
      assert front[..k] == pages[..k];
      AddPagesPrefixFailure(read, front, k);
    }
  }

  // ===========================================================================
  // combine_page_info_and_polygons
  // ===========================================================================

  /** A page's size and unit with its figure polygons. */
  datatype PageLayoutInfo = PageLayoutInfo(width: Value, height: Value, unit: Value, polygons: seq<Value>)

  /** `combine_page_info_and_polygons`, over the pages with polygons in
      order: a page with info gets an entry. */
  function Combine(info: Pages, polygons: Polygons): seq<Slot<PageLayoutInfo>>
    decreases |polygons|
  {
    if polygons == [] then []
    else
      var c := Combine(info, polygons[..|polygons| - 1]);
      var s := polygons[|polygons| - 1];
      match Find(info, s.page)
      case None => c
      case Some(i) => Store(c, s.page, PageLayoutInfo(i.width, i.height, i.unit, s.val))
  }

  /** The pages with polygons that also have info, in order. */
  function WithInfo(info: Pages, pages: seq<Value>): seq<Value>
    decreases |pages|
  {
    if pages == [] then []
    else WithInfo(info, pages[..|pages| - 1]) + (if Find(info, pages[|pages| - 1]).Some? then [pages[|pages| - 1]] else [])
  }

  /** The pages of a list with one more slot. */
  lemma PagesOfSnoc<V>(t: seq<Slot<V>>)
    requires t != []
    ensures PagesOf(t) == PagesOf(t[..|t| - 1]) + [t[|t| - 1].page]
  {
    var front := t[..|t| - 1];
    var a, b := PagesOf(t), PagesOf(front) + [t[|t| - 1].page];
    assert |a| == |b|;
    forall k | 0 <= k < |a| ensures a[k] == b[k] {
      if k < |front| {
        assert b[k] == PagesOf(front)[k] == front[k].page;
      }
    }
  }

  /** The combined keys are the pages that have both polygons and info, in
      the order of the polygons. */
  lemma {:induction false} CombinePages(info: Pages, polygons: Polygons)
    requires Distinct(polygons)
    ensures PagesOf(Combine(info, polygons)) == WithInfo(info, PagesOf(polygons))
    decreases |polygons|
  {
    if polygons != [] {
      var front := polygons[..|polygons| - 1];
      var s := polygons[|polygons| - 1];
      assert Distinct(front);
      CombinePages(info, front);
      CombineFind(info, front, s.page);
      PagesOfSnoc(polygons);
      assert PagesOf(polygons)[..|polygons| - 1] == PagesOf(front);
      var c := Combine(info, front);
      FindPresent(front, s.page);
      if Find(info, s.page).Some? {
        var i := Find(info, s.page).value;
        StorePages(c, s.page, PageLayoutInfo(i.width, i.height, i.unit, s.val));
        FindPresent(c, s.page);
      }
    }
  }

  /** Each combined entry copies the page's width, height and unit and its
      polygon list; a page missing either has no entry. */
  lemma {:induction false} CombineFind(info: Pages, polygons: Polygons, page: Value)
    requires Distinct(polygons)
    ensures Find(Combine(info, polygons), page)
              == (if Find(info, page).Some? && Find(polygons, page).Some?
                  then Some(PageLayoutInfo(Find(info, page).value.width, Find(info, page).value.height,
                                           Find(info, page).value.unit, Find(polygons, page).value))
                  else None)
    decreases |polygons|
  {
    if polygons != [] {
      var front := polygons[..|polygons| - 1];
      var s := polygons[|polygons| - 1];
      assert Distinct(front);
      CombineFind(info, front, page);
      FindSnoc(polygons, page);
      var c := Combine(info, front);
      if Find(info, s.page).Some? {
        var i := Find(info, s.page).value;
        StoreFind(c, s.page, PageLayoutInfo(i.width, i.height, i.unit, s.val), page);
      }
    }
  }

  /** The combined keys are the pages that have both polygons and info, in
      the order of the polygons; each entry copies the page's width,
      height and unit and its polygon list. */
  lemma CombineFacts(info: Pages, polygons: Polygons, page: Value)
    requires Distinct(polygons)
    ensures var c := Combine(info, polygons);
            PagesOf(c) == WithInfo(info, PagesOf(polygons))
            && Find(c, page) == (if Find(info, page).Some? && Find(polygons, page).Some?
                                 then Some(PageLayoutInfo(Find(info, page).value.width, Find(info, page).value.height,
                                                          Find(info, page).value.unit, Find(polygons, page).value))
                                 else None)
  {
    CombinePages(info, polygons);
    CombineFind(info, polygons, page);
  }

  /** Finding in a list with distinct pages: the last slot answers for its
      own page only. */
  lemma {:induction false} FindSnoc<V>(t: seq<Slot<V>>, page: Value)
    requires t != [] && Distinct(t)
    ensures Find(t, page) == if page == t[|t| - 1].page then Some(t[|t| - 1].val) else Find(t[..|t| - 1], page)
    decreases |t|
  {
    if |t| > 1 && t[0].page != page {
      assert t[1..][..|t| - 2] == t[..|t| - 1][1..];
      FindSnoc(t[1..], page);
    }
  }

  /** The loop of `combine_page_info_and_polygons`. */
  method CombinePageInfoAndPolygons(info: Pages, polygons: Polygons) returns (combined: seq<Slot<PageLayoutInfo>>)
    ensures combined == Combine(info, polygons)
  {
    combined := [];
    for i := 0 to |polygons|
      invariant combined == Combine(info, polygons[..i])
    {
      assert polygons[..i + 1][..i] == polygons[..i];
      var s := polygons[i];
      var found := Find(info, s.page);
      if found.Some? {
        combined := Store(combined, s.page, PageLayoutInfo(found.value.width, found.value.height, found.value.unit, s.val));
      }
    }
    assert polygons[..|polygons|] == polygons;
  }

  // ===========================================================================
  // create_figures and extract_page_polygons
  // ===========================================================================

  /** `doc_intel_output['analyzeResult']['figures']`. */
  function CreateFigures(output: Value): (r: Result<Value>)
    ensures r.Success? <==> Get(output, "analyzeResult").Some? && Get(Get(output, "analyzeResult").value, "figures").Some?
    ensures r.Success? ==> r.value == Get(Get(output, "analyzeResult").value, "figures").value
  {
    var analyzed :- Index(output, "analyzeResult");
    Index(analyzed, "figures")
  }

  /** `{'pageNumber': region['pageNumber'], 'polygon': region['polygon']}`. */
  function RegionEntry(region: Value): Result<Value> {
    var page :- Index(region, "pageNumber");
    var polygon :- Index(region, "polygon");
    Success(Obj([Field("pageNumber", page), Field("polygon", polygon)]))
  }

  /** The entries of one figure appended to those before it. */
  function FigureEntries(acc: seq<Value>, figure: Value): Result<seq<Value>> {
    var regions :- Index(figure, "boundingRegions");
    var rs :- Items(regions);
    var entries :- ForEach(RegionEntry, rs);
    Success(acc + entries)
  }

  /** `extract_page_polygons`. */
  function PagePolygons(figures: Value): Result<seq<Value>> {
    var figs :- Items(figures);
    Loop(FigureEntries, [], figs)
  }

  /** The bounding regions of all figures, read by indexing. */
  function StrictRegions(acc: seq<Value>, figure: Value): Result<seq<Value>> {
    var regions :- Index(figure, "boundingRegions");
    var rs :- Items(regions);
    Success(acc + rs)
  }

  /** `es` holds one entry per region of `rs`, with the region's page
      number and polygon. */
  predicate EntriesOf(es: seq<Value>, rs: seq<Value>) {
    |es| == |rs|
    && forall i :: 0 <= i < |rs| ==>
         Get(rs[i], "pageNumber").Some? && Get(rs[i], "polygon").Some?
         && es[i] == Obj([Field("pageNumber", Get(rs[i], "pageNumber").value),
                          Field("polygon", Get(rs[i], "polygon").value)])
  }

  /** One figure adds one entry per bounding region. */
  lemma FigureStep(es0: seq<Value>, rs0: seq<Value>, f: Value)
    requires EntriesOf(es0, rs0) && FigureEntries(es0, f).Success?
    ensures StrictRegions(rs0, f).Success?
    ensures EntriesOf(FigureEntries(es0, f).value, StrictRegions(rs0, f).value)
  {
    var items := Get(f, "boundingRegions").value.items;
    ForEachFacts(RegionEntry, items);
    var es := FigureEntries(es0, f).value;
    var rs := StrictRegions(rs0, f).value;
    assert es == es0 + ForEach(RegionEntry, items).value;
    assert rs == rs0 + items;
    forall i | |rs0| <= i < |rs|
      ensures Get(rs[i], "pageNumber").Some? && Get(rs[i], "polygon").Some?
              && es[i] == Obj([Field("pageNumber", Get(rs[i], "pageNumber").value),
                               Field("polygon", Get(rs[i], "polygon").value)])
    {
      assert rs[i] == items[i - |rs0|];
      assert RegionEntry(items[i - |rs0|]).Success?;
    }
  }

  /** One entry per bounding region across all figures, in order, each
      carrying the region's page number and polygon. */
  lemma {:induction false} FigureEntriesFacts(figs: seq<Value>)
    requires Loop(FigureEntries, [], figs).Success?
    ensures Loop(StrictRegions, [], figs).Success?
    ensures EntriesOf(Loop(FigureEntries, [], figs).value, Loop(StrictRegions, [], figs).value)
    decreases |figs|
  {
    if figs != [] {
      var front := figs[..|figs| - 1];
      FigureEntriesFacts(front);
      FigureStep(Loop(FigureEntries, [], front).value, Loop(StrictRegions, [], front).value, figs[|figs| - 1]);
    }
  }

  /** The loops of `extract_page_polygons`. */
  method ExtractPagePolygons(figures: Value) returns (r: Result<seq<Value>>)
    ensures r == PagePolygons(figures)
  {
    if !figures.Arr? {
      return Failure(TypeMismatch);
    }
    var figs := figures.items;
    var pagePolygons: seq<Value> := [];
    for i := 0 to |figs|
      invariant Loop(FigureEntries, [], figs[..i]) == Success(pagePolygons)
    {
      LoopSnoc(FigureEntries, [], figs, i, pagePolygons);
      var regions := Index(figs[i], "boundingRegions");
      if regions.Failure? {
        LoopPrefixFailure(FigureEntries, [], figs, i + 1);
        return Failure(regions.error);
      }
      if !regions.value.Arr? {
        LoopPrefixFailure(FigureEntries, [], figs, i + 1);
        return Failure(TypeMismatch);
      }
      var entries := ForEachMethod(RegionEntry, regions.value.items);
      if entries.Failure? {
        LoopPrefixFailure(FigureEntries, [], figs, i + 1);
        return Failure(entries.error);
      }
      pagePolygons := pagePolygons + entries.value;
    }
    assert figs[..|figs|] == figs;
    r := Success(pagePolygons);
  }
}
