/**
 * The border widget (src/ui/widget/border.rs): draws its contained widget,
 * then a frame around it from two textures, a side length repeated along
 * each side and a corner. Its draw is modelled as the list of commands it
 * issues: drawing the contained widget, then the copies.
 */
module BorderWidget {
  import opened Ints
  import opened Wrappers
  import opened Tiling
  import TextureRects
  import Widgets

  datatype DrawCommand =
    | DrawContained
    | CopyTo(src: TextureRects.TextureRect, dst: TextureRects.TextureDestination)

  datatype Side = Top | Bottom | Right | Left

  /** How each side's length texture is turned and flipped. */
  function SideRotation(side: Side): Option<TextureRects.TextureRotation>
  {
    match side
    case Top => None
    case Bottom => Some(TextureRects.TextureRotation(0, None, false, true))
    case Right => Some(TextureRects.TextureRotation(90, Some((0, 0)), false, false))
    case Left => Some(TextureRects.TextureRotation(90, Some((0, 0)), false, true))
  }

  /** Where a side's pieces are laid: the start of its span and the coordinate it keeps fixed. */
  function SideStart(side: Side, pos: TextureRects.TextureRect, t: NonZeroU32): int
  {
    if side.Top? || side.Bottom? then pos.x + t else pos.y + t
  }

  function SideLength(side: Side, pos: TextureRects.TextureRect, t: NonZeroU32): int
  {
    if side.Top? || side.Bottom? then pos.w - 2 * t else pos.h - 2 * t
  }

  /** The copy for one piece of a side: the length texture cut to the piece's length. */
  function SideCopy(side: Side, pos: TextureRects.TextureRect, lengthSrc: TextureRects.TextureRect, seg: Segment): DrawCommand
  {
    var t := lengthSrc.h;
    var dst := match side
      case Top => TextureRects.TextureRect(seg.offset, pos.y, seg.len, t)
      case Bottom => TextureRects.TextureRect(seg.offset, pos.y + pos.h - t, seg.len, t)
      case Right => TextureRects.TextureRect(pos.x + pos.w, seg.offset, seg.len, t)
      case Left => TextureRects.TextureRect(pos.x + t, seg.offset, seg.len, t);
    CopyTo(TextureRects.TextureRect(lengthSrc.x, lengthSrc.y, seg.len, t), TextureRects.TextureDestination(dst, SideRotation(side)))
  }

  function SideCopies(side: Side, pos: TextureRects.TextureRect, lengthSrc: TextureRects.TextureRect, segs: seq<Segment>): seq<DrawCommand>
  {
    if |segs| == 0 then [] else [SideCopy(side, pos, lengthSrc, segs[0])] + SideCopies(side, pos, lengthSrc, segs[1..])
  }

  /** The pieces of one side. */
  function SideSegments(side: Side, pos: TextureRects.TextureRect, lengthSrc: TextureRects.TextureRect): seq<Segment>
  {
    SegmentsFrom(SideStart(side, pos, lengthSrc.h), SideLength(side, pos, lengthSrc.h), lengthSrc.w)
  }

  function SideCommands(side: Side, pos: TextureRects.TextureRect, lengthSrc: TextureRects.TextureRect): seq<DrawCommand>
  {
    SideCopies(side, pos, lengthSrc, SideSegments(side, pos, lengthSrc))
  }

  /** The four corner copies: top right, top left, bottom right, bottom left. */
  function CornerCommands(pos: TextureRects.TextureRect, t: NonZeroU32, cornerSrc: TextureRects.TextureRect): seq<DrawCommand>
  {
    var right := pos.x + pos.w - t;
    var bottom := pos.y + pos.h - t;
    [ CopyTo(cornerSrc, TextureRects.TextureDestination(TextureRects.TextureRect(right, pos.y, cornerSrc.w, cornerSrc.h), None)),
      CopyTo(cornerSrc, TextureRects.TextureDestination(TextureRects.TextureRect(pos.x, pos.y, cornerSrc.w, cornerSrc.h),
                                                         Some(TextureRects.TextureRotation(0, None, true, false)))),
      CopyTo(cornerSrc, TextureRects.TextureDestination(TextureRects.TextureRect(right, bottom, cornerSrc.w, cornerSrc.h),
                                                         Some(TextureRects.TextureRotation(0, None, false, true)))),
      CopyTo(cornerSrc, TextureRects.TextureDestination(TextureRects.TextureRect(pos.x, bottom, cornerSrc.w, cornerSrc.h),
                                                         Some(TextureRects.TextureRotation(0, None, true, true)))) ]
  }

  /** Everything a draw at a non-empty position issues, in order. */
  function BorderCommands(pos: TextureRects.TextureRect, lengthSrc: TextureRects.TextureRect, cornerSrc: TextureRects.TextureRect): seq<DrawCommand>
  {
    [DrawContained]
      + SideCommands(Top, pos, lengthSrc) + SideCommands(Bottom, pos, lengthSrc)
      + SideCommands(Right, pos, lengthSrc) + SideCommands(Left, pos, lengthSrc)
      + CornerCommands(pos, lengthSrc.h, cornerSrc)
  }

  lemma {:induction false} SideCopiesIndex(side: Side, pos: TextureRects.TextureRect, lengthSrc: TextureRects.TextureRect, segs: seq<Segment>)
    ensures |SideCopies(side, pos, lengthSrc, segs)| == |segs|
    ensures forall k :: 0 <= k < |segs| ==> SideCopies(side, pos, lengthSrc, segs)[k] == SideCopy(side, pos, lengthSrc, segs[k])
  {
    if |segs| > 0 {
      SideCopiesIndex(side, pos, lengthSrc, segs[1..]);
    }
  }

  /**
   * Each side is tiled with the length texture: the k-th copy starts k
   * texture widths past the corner, all but the last are whole textures,
   * the last is cut to what remains (between 1 and a whole width) and ends
   * at the far corner, and their lengths add up to the side less both
   * corners. A side with no room between the corners gets no copies.
   */
  lemma SideTiling(side: Side, pos: TextureRects.TextureRect, lengthSrc: TextureRects.TextureRect)
    requires SideLength(side, pos, lengthSrc.h) >= 0
    ensures var segs := SideSegments(side, pos, lengthSrc);
      var cmds := SideCommands(side, pos, lengthSrc);
      var start := SideStart(side, pos, lengthSrc.h);
      var len := SideLength(side, pos, lengthSrc.h);
      && |cmds| == |segs|
      && (|cmds| == 0 <==> len == 0)
      && TotalLength(segs) == len
      && (forall k :: 0 <= k < |segs| ==>
            && cmds[k] == SideCopy(side, pos, lengthSrc, segs[k])
            && segs[k].offset == start + k * lengthSrc.w
            && cmds[k].src.x == lengthSrc.x && cmds[k].src.y == lengthSrc.y && cmds[k].src.w == segs[k].len)
      && (forall k :: 0 <= k < |segs| - 1 ==> segs[k].len == lengthSrc.w && segs[k + 1].offset == segs[k].offset + segs[k].len)
      && (|segs| > 0 ==> segs[|segs| - 1].len <= lengthSrc.w && segs[|segs| - 1].offset + segs[|segs| - 1].len == start + len)
  {
    var start := SideStart(side, pos, lengthSrc.h);
    var len := SideLength(side, pos, lengthSrc.h);
    SideCopiesIndex(side, pos, lengthSrc, SideSegments(side, pos, lengthSrc));
    SegmentsShape(start, len, lengthSrc.w);
    Contiguous(start, len, lengthSrc.w);
    SegmentsTotal(start, len, lengthSrc.w);
  }

  /** The contained widget is drawn first, and only once; the last four commands are the corner copies. */
  lemma ContainedFirstCornersLast(pos: TextureRects.TextureRect, lengthSrc: TextureRects.TextureRect, cornerSrc: TextureRects.TextureRect)
    ensures var cmds := BorderCommands(pos, lengthSrc, cornerSrc);
      && |cmds| >= 5 && cmds[0] == DrawContained
      && (forall k :: 1 <= k < |cmds| ==> cmds[k].CopyTo?)
      && cmds[|cmds| - 4..] == CornerCommands(pos, lengthSrc.h, cornerSrc)
      && (forall k :: |cmds| - 4 <= k < |cmds| ==> cmds[k].src == cornerSrc)
  {
    var top := SideCommands(Top, pos, lengthSrc);
    var bottom := SideCommands(Bottom, pos, lengthSrc);
    var right := SideCommands(Right, pos, lengthSrc);
    var left := SideCommands(Left, pos, lengthSrc);
    SideAllCopies(Top, pos, lengthSrc);
    SideAllCopies(Bottom, pos, lengthSrc);
    SideAllCopies(Right, pos, lengthSrc);
    SideAllCopies(Left, pos, lengthSrc);
    var cmds := BorderCommands(pos, lengthSrc, cornerSrc);
    var sides := top + bottom + right + left;
    assert AllCopies(sides) by {
      AllCopiesConcat(top, bottom);
      AllCopiesConcat(top + bottom, right);
      AllCopiesConcat(top + bottom + right, left);
    }
    var corners := CornerCommands(pos, lengthSrc.h, cornerSrc);
    assert cmds == [DrawContained] + sides + corners;
    assert cmds[|cmds| - 4..] == corners;
    forall k | 1 <= k < |cmds|
      ensures cmds[k].CopyTo?
    {
      if k < 1 + |sides| {
        assert cmds[k] == sides[k - 1];
      }
    }
  }

  lemma SideAllCopies(side: Side, pos: TextureRects.TextureRect, lengthSrc: TextureRects.TextureRect)
    ensures AllCopies(SideCommands(side, pos, lengthSrc))
  {
    SideCopiesIndex(side, pos, lengthSrc, SideSegments(side, pos, lengthSrc));
  }

  predicate AllCopies(cmds: seq<DrawCommand>)
  {
    forall k :: 0 <= k < |cmds| ==> cmds[k].CopyTo?
  }

  lemma AllCopiesConcat(a: seq<DrawCommand>, b: seq<DrawCommand>)
    requires AllCopies(a) && AllCopies(b)
    ensures AllCopies(a + b)
  {
    forall k | 0 <= k < |a + b|
      ensures (a + b)[k].CopyTo?
    {
      if k >= |a| {
        assert (a + b)[k] == b[k - |a|];
      }
    }
  }

  /** One of the four side loops of `draw`, advancing the offset a texture width at a time. */
  method DrawSide(side: Side, pos: TextureRects.TextureRect, lengthSrc: TextureRects.TextureRect) returns (cmds: seq<DrawCommand>)
    requires SideLength(side, pos, lengthSrc.h) >= 0
    ensures cmds == SideCommands(side, pos, lengthSrc)
  {
    cmds := [];
    var offset := SideStart(side, pos, lengthSrc.h);
    var amountLeft := SideLength(side, pos, lengthSrc.h);
    while true
      invariant amountLeft >= 0
      invariant cmds + SideCopies(side, pos, lengthSrc, SegmentsFrom(offset, amountLeft, lengthSrc.w)) == SideCommands(side, pos, lengthSrc)
      decreases amountLeft
    {
      if amountLeft > lengthSrc.w {
        var rest := SegmentsFrom(offset + lengthSrc.w, amountLeft - lengthSrc.w, lengthSrc.w);
        assert ([Segment(offset, lengthSrc.w)] + rest)[1..] == rest;
        assert SideCopy(side, pos, lengthSrc, Segment(offset, lengthSrc.w)).src == lengthSrc;
        cmds := cmds + [SideCopy(side, pos, lengthSrc, Segment(offset, lengthSrc.w))];
        offset := offset + lengthSrc.w;
        amountLeft := amountLeft - lengthSrc.w;
      } else {
        if amountLeft > 0 {
          assert [Segment(offset, amountLeft)][1..] == [];
          cmds := cmds + [SideCopy(side, pos, lengthSrc, Segment(offset, amountLeft))];
        }
        break;
      }
    }
  }

  class Border {
    const lengthTextureSrc: TextureRects.TextureRect
    const cornerTextureSrc: TextureRects.TextureRect
    /** The position stored by update for draw. */
    var borderDrawPos: Widgets.FRect

    constructor (lengthTextureSrc: TextureRects.TextureRect, cornerTextureSrc: TextureRects.TextureRect)
      ensures this.lengthTextureSrc == lengthTextureSrc && this.cornerTextureSrc == cornerTextureSrc
      ensures borderDrawPos == Widgets.FRect(0.0, 0.0, 0.0, 0.0)
    {
      this.lengthTextureSrc := lengthTextureSrc;
      this.cornerTextureSrc := cornerTextureSrc;
      borderDrawPos := Widgets.FRect(0.0, 0.0, 0.0, 0.0);
    }

    /** `update`: records the position; the contained widget's result is passed on. */
    method Update(event: Widgets.WidgetUpdateEvent, containedResult: Result<bool, string>) returns (r: Result<bool, string>)
      modifies this
      ensures borderDrawPos == event.position && r == containedResult
    {
      borderDrawPos := event.position;
      r := containedResult;
    }

    /**
     * `draw`. `pos` is the stored position on the integer grid, `contained`
     * the outcome of drawing the contained widget and `texture` of loading
     * the border texture. The sides are laid between the corners, so the
     * position must be at least two border widths across each way.
     */
    method Draw(pos: Option<TextureRects.TextureRect>, contained: Result<(), string>, texture: Result<(), string>)
      returns (r: Result<seq<DrawCommand>, string>)
      requires pos.Some? ==> pos.value.w >= 2 * lengthTextureSrc.h && pos.value.h >= 2 * lengthTextureSrc.h
      ensures contained.Err? ==> r == Err(contained.error)
      ensures contained.Ok? && pos.None? ==> r == Ok([DrawContained])
      ensures contained.Ok? && pos.Some? && texture.Err? ==> r == Err(texture.error)
      ensures contained.Ok? && pos.Some? && texture.Ok? ==> r == Ok(BorderCommands(pos.value, lengthTextureSrc, cornerTextureSrc))
    {
      if contained.Err? {
        return Err(contained.error);
      }
      if pos.None? {
        return Ok([DrawContained]);
      }
      var p := pos.value;
      if texture.Err? {
        return Err(texture.error);
      }
      var top := DrawSide(Top, p, lengthTextureSrc);
      var bottom := DrawSide(Bottom, p, lengthTextureSrc);
      var right := DrawSide(Right, p, lengthTextureSrc);
      var left := DrawSide(Left, p, lengthTextureSrc);
      var corners := CornerCommands(p, lengthTextureSrc.h, cornerTextureSrc);
      r := Ok([DrawContained] + top + bottom + right + left + corners);
    }
  }
}
