/** Low-level drawing records (src/render.rs): points, areas, draw
    instructions and the `DrawContext` that collects them. A `View` is a
    closure in the library; here it is an opaque identifier. */
module Render {
  import opened Common

  datatype Point = Point(x: U16, y: U16)

  datatype Area = Area(x: U16, y: U16, width: U16, height: U16)

  /** A drawing context as a value: what `DrawInstruction::Child` carries.
      `bounds` is the library's `allocated` field (a reserved word here). */
  datatype Frame = Frame(area: Area, bounds: Area, drawing: seq<DrawInstruction>)

  datatype DrawInstruction =
    | Text(point: Point, text: string)
    | View(viewArea: Area, view: nat)
    | Child(offset: Point, frame: Frame)

  /** The allocation of a fresh context: the identity of `Cover`. */
  const Unallocated := Area(U16_MAX, U16_MAX, 0, 0)

  /** The bounds `allocate` keeps: smallest x and y, largest width and height. */
  function Cover(bounds: Area, request: Area): (r: Area)
    ensures r.x <= bounds.x && r.x <= request.x && (r.x == bounds.x || r.x == request.x)
    ensures r.y <= bounds.y && r.y <= request.y && (r.y == bounds.y || r.y == request.y)
    ensures r.width >= bounds.width && r.width >= request.width
    ensures r.width == bounds.width || r.width == request.width
    ensures r.height >= bounds.height && r.height >= request.height
    ensures r.height == bounds.height || r.height == request.height
  {
    Area(Min(bounds.x, request.x), Min(bounds.y, request.y),
         Max(bounds.width, request.width), Max(bounds.height, request.height))
  }

  /** The first allocation of a fresh context is exactly the request. */
  lemma CoverUnallocated(request: Area)
    ensures Cover(Unallocated, request) == request
  {
  }

  /** Allocating the same area twice is the same as allocating it once. */
  lemma CoverIdempotent(bounds: Area, request: Area)
    ensures Cover(Cover(bounds, request), request) == Cover(bounds, request)
  {
  }

  /** The order of allocations does not matter. */
  lemma CoverCommutes(bounds: Area, a: Area, b: Area)
    ensures Cover(Cover(bounds, a), b) == Cover(Cover(bounds, b), a)
  {
  }

  /** `DrawContext`. */
  class DrawContext {
    var area: Area
    /** The library's `allocated`: the union of every allocation so far. */
    var bounds: Area
    var drawing: seq<DrawInstruction>

    /** `DrawContext::new`. */
    constructor (area: Area)
      ensures this.area == area && bounds == Unallocated && drawing == []
    {
      this.area := area;
      bounds := Unallocated;
      drawing := [];
    }

    /** The context as a value. */
    function Snapshot(): (f: Frame)
      reads this
      ensures f.area == area && f.bounds == bounds && f.drawing == drawing
    {
      Frame(area, bounds, drawing)
    }

    /** `allocate`: widens the recorded bounds and returns the request. */
    method Allocate(x: U16, y: U16, width: U16, height: U16) returns (r: Area)
      modifies this
      ensures r == Area(x, y, width, height)
      ensures bounds == Cover(old(bounds), r)
      ensures area == old(area) && drawing == old(drawing)
    {
      bounds := bounds.(x := Min(bounds.x, x));
      bounds := bounds.(y := Min(bounds.y, y));
      bounds := bounds.(width := Max(bounds.width, width));
      bounds := bounds.(height := Max(bounds.height, height));
      r := Area(x, y, width, height);
    }

    /** `draw`. */
    method Draw(inst: DrawInstruction)
      modifies this
      ensures drawing == old(drawing) + [inst]
      ensures area == old(area) && bounds == old(bounds)
    {
      drawing := drawing + [inst];
    }

    /** `draw_text`. */
    method DrawText(point: Point, text: string)
      modifies this
      ensures drawing == old(drawing) + [Text(point, text)]
      ensures area == old(area) && bounds == old(bounds)
    {
      drawing := drawing + [Text(point, text)];
    }

    /** `draw_view`. */
    method DrawView(viewArea: Area, view: nat)
      modifies this
      ensures drawing == old(drawing) + [View(viewArea, view)]
      ensures area == old(area) && bounds == old(bounds)
    {
      drawing := drawing + [View(viewArea, view)];
    }
  }
}
