/**
 * The closed vocabulary of tile names the level generator writes into its
 * floor and wall maps. Every constructor stands for exactly one sprite name,
 * given by `Name`. Two names appear in the generator both with and without
 * the `.png` suffix; they are two distinct tiles here, as they are two
 * distinct strings in the generator.
 */
module Tiles {
  import opened Wrappers

  datatype Tile =
    // floors
    | Floor1 | Floor2 | Floor3 | Floor4 | Floor5 | Floor6 | Floor7 | Floor8
    | FloorLadder | GooBase | FountainBasinRed | FountainBasinBlue
    // room and corridor walls
    | WallCornerTopLeft | WallCornerTopLeftBare | WallCornerLeft
    | WallTopMid | WallTopMidBare | WallMid
    | WallCornerTopRight | WallCornerRight
    | WallCornerBottomLeft | WallLeft | WallCornerBottomRight | WallRight
    | WallSideMidLeft | WallSideMidRight
    | WallSideFrontLeft | WallSideFrontRight
    | WallSideTopLeft | WallSideTopRight
    | WallCornerFrontLeft | WallCornerFrontRight
    // wall decorations
    | WallHole1 | WallHole2
    | WallBannerRed | WallBannerBlue | WallBannerGreen | WallBannerYellow
    | WallGoo | WallFountainMidRed | WallFountainMidBlue | WallFountainTop

  /** The sprite name each tile stands for. */
  function Name(t: Tile): string {
    match t
    case Floor1 => "floor_1.png"
    case Floor2 => "floor_2.png"
    case Floor3 => "floor_3.png"
    case Floor4 => "floor_4.png"
    case Floor5 => "floor_5.png"
    case Floor6 => "floor_6.png"
    case Floor7 => "floor_7.png"
    case Floor8 => "floor_8.png"
    case FloorLadder => "floor_ladder.png"
    case GooBase => "wall_goo_base.png"
    case FountainBasinRed => "wall_fountain_basin_red"
    case FountainBasinBlue => "wall_fountain_basin_blue"
    case WallCornerTopLeft => "wall_corner_top_left.png"
    case WallCornerTopLeftBare => "wall_corner_top_left"
    case WallCornerLeft => "wall_corner_left.png"
    case WallTopMid => "wall_top_mid.png"
    case WallTopMidBare => "wall_top_mid"
    case WallMid => "wall_mid.png"
    case WallCornerTopRight => "wall_corner_top_right.png"
    case WallCornerRight => "wall_corner_right.png"
    case WallCornerBottomLeft => "wall_corner_bottom_left.png"
    case WallLeft => "wall_left.png"
    case WallCornerBottomRight => "wall_corner_bottom_right.png"
    case WallRight => "wall_right.png"
    case WallSideMidLeft => "wall_side_mid_left.png"
    case WallSideMidRight => "wall_side_mid_right.png"
    case WallSideFrontLeft => "wall_side_front_left.png"
    case WallSideFrontRight => "wall_side_front_right.png"
    case WallSideTopLeft => "wall_side_top_left.png"
    case WallSideTopRight => "wall_side_top_right.png"
    case WallCornerFrontLeft => "wall_corner_front_left.png"
    case WallCornerFrontRight => "wall_corner_front_right.png"
    case WallHole1 => "wall_hole_1.png"
    case WallHole2 => "wall_hole_2.png"
    case WallBannerRed => "wall_banner_red.png"
    case WallBannerBlue => "wall_banner_blue.png"
    case WallBannerGreen => "wall_banner_green.png"
    case WallBannerYellow => "wall_banner_yellow.png"
    case WallGoo => "wall_goo.png"
    case WallFountainMidRed => "wall_fountain_mid_red"
    case WallFountainMidBlue => "wall_fountain_mid_blue"
    case WallFountainTop => "wall_fountain_top.png"
  }

  /** The tile a sprite name stands for, if it is one of the generator's names. */
  function FromName(name: string): Option<Tile> {
    match name
    case "floor_1.png" => Some(Floor1)
    case "floor_2.png" => Some(Floor2)
    case "floor_3.png" => Some(Floor3)
    case "floor_4.png" => Some(Floor4)
    case "floor_5.png" => Some(Floor5)
    case "floor_6.png" => Some(Floor6)
    case "floor_7.png" => Some(Floor7)
    case "floor_8.png" => Some(Floor8)
    case "floor_ladder.png" => Some(FloorLadder)
    case "wall_goo_base.png" => Some(GooBase)
    case "wall_fountain_basin_red" => Some(FountainBasinRed)
    case "wall_fountain_basin_blue" => Some(FountainBasinBlue)
    case "wall_corner_top_left.png" => Some(WallCornerTopLeft)
    case "wall_corner_top_left" => Some(WallCornerTopLeftBare)
    case "wall_corner_left.png" => Some(WallCornerLeft)
    case "wall_top_mid.png" => Some(WallTopMid)
    case "wall_top_mid" => Some(WallTopMidBare)
    case "wall_mid.png" => Some(WallMid)
    case "wall_corner_top_right.png" => Some(WallCornerTopRight)
    case "wall_corner_right.png" => Some(WallCornerRight)
    case "wall_corner_bottom_left.png" => Some(WallCornerBottomLeft)
    case "wall_left.png" => Some(WallLeft)
    case "wall_corner_bottom_right.png" => Some(WallCornerBottomRight)
    case "wall_right.png" => Some(WallRight)
    case "wall_side_mid_left.png" => Some(WallSideMidLeft)
    case "wall_side_mid_right.png" => Some(WallSideMidRight)
    case "wall_side_front_left.png" => Some(WallSideFrontLeft)
    case "wall_side_front_right.png" => Some(WallSideFrontRight)
    case "wall_side_top_left.png" => Some(WallSideTopLeft)
    case "wall_side_top_right.png" => Some(WallSideTopRight)
    case "wall_corner_front_left.png" => Some(WallCornerFrontLeft)
    case "wall_corner_front_right.png" => Some(WallCornerFrontRight)
    case "wall_hole_1.png" => Some(WallHole1)
    case "wall_hole_2.png" => Some(WallHole2)
    case "wall_banner_red.png" => Some(WallBannerRed)
    case "wall_banner_blue.png" => Some(WallBannerBlue)
    case "wall_banner_green.png" => Some(WallBannerGreen)
    case "wall_banner_yellow.png" => Some(WallBannerYellow)
    case "wall_goo.png" => Some(WallGoo)
    case "wall_fountain_mid_red" => Some(WallFountainMidRed)
    case "wall_fountain_mid_blue" => Some(WallFountainMidBlue)
    case "wall_fountain_top.png" => Some(WallFountainTop)
    case _ => None
  }

  /** Reading a tile's sprite name back gives the tile: distinct tiles are distinct names. */
  lemma NameRoundTrip(t: Tile)
    ensures FromName(Name(t)) == Some(t)
  {
    if t.Floor1? || t.Floor2? || t.Floor3? || t.Floor4? || t.Floor5? ||
        t.Floor6? || t.Floor7? || t.Floor8? || t.FloorLadder? || t.GooBase? {
      NameRoundTripA(t);
    } else if t.FountainBasinRed? || t.FountainBasinBlue? || t.WallCornerTopLeft? ||
        t.WallCornerTopLeftBare? || t.WallCornerLeft? || t.WallTopMid? ||
        t.WallTopMidBare? || t.WallMid? {
      NameRoundTripB(t);
    } else if t.WallCornerTopRight? || t.WallCornerRight? || t.WallCornerBottomLeft? ||
        t.WallLeft? || t.WallCornerBottomRight? || t.WallRight? {
      NameRoundTripC(t);
    } else if t.WallSideMidLeft? || t.WallSideMidRight? || t.WallSideFrontLeft? ||
        t.WallSideFrontRight? || t.WallSideTopLeft? {
      NameRoundTripD(t);
    } else if t.WallSideTopRight? || t.WallCornerFrontLeft? || t.WallCornerFrontRight? ||
        t.WallHole1? || t.WallHole2? {
      NameRoundTripE(t);
    } else if t.WallBannerRed? || t.WallBannerBlue? || t.WallBannerGreen? ||
        t.WallBannerYellow? {
      NameRoundTripF(t);
    } else {
      NameRoundTripG(t);
    }
  }

  /** `NameRoundTrip` for Floor1 to GooBase, in declaration order. */
  lemma NameRoundTripA(t: Tile)
    requires t.Floor1? || t.Floor2? || t.Floor3? || t.Floor4? || t.Floor5? ||
      t.Floor6? || t.Floor7? || t.Floor8? || t.FloorLadder? || t.GooBase?
    ensures FromName(Name(t)) == Some(t)
  {
    match t
    case Floor1 => assert FromName("floor_1.png") == Some(Floor1);
    case Floor2 => assert FromName("floor_2.png") == Some(Floor2);
    case Floor3 => assert FromName("floor_3.png") == Some(Floor3);
    case Floor4 => assert FromName("floor_4.png") == Some(Floor4);
    case Floor5 => assert FromName("floor_5.png") == Some(Floor5);
    case Floor6 => assert FromName("floor_6.png") == Some(Floor6);
    case Floor7 => assert FromName("floor_7.png") == Some(Floor7);
    case Floor8 => assert FromName("floor_8.png") == Some(Floor8);
    case FloorLadder => assert FromName("floor_ladder.png") == Some(FloorLadder);
    case GooBase => assert FromName("wall_goo_base.png") == Some(GooBase);
    case _ => assert false;
  }

  /** `NameRoundTrip` for FountainBasinRed to WallMid, in declaration order. */
  lemma NameRoundTripB(t: Tile)
    requires t.FountainBasinRed? || t.FountainBasinBlue? || t.WallCornerTopLeft? ||
      t.WallCornerTopLeftBare? || t.WallCornerLeft? || t.WallTopMid? ||
      t.WallTopMidBare? || t.WallMid?
    ensures FromName(Name(t)) == Some(t)
  {
    match t
    case FountainBasinRed => assert FromName("wall_fountain_basin_red") == Some(FountainBasinRed);
    case FountainBasinBlue => assert FromName("wall_fountain_basin_blue") == Some(FountainBasinBlue);
    case WallCornerTopLeft => assert FromName("wall_corner_top_left.png") == Some(WallCornerTopLeft);
    case WallCornerTopLeftBare => assert FromName("wall_corner_top_left") == Some(WallCornerTopLeftBare);
    case WallCornerLeft => assert FromName("wall_corner_left.png") == Some(WallCornerLeft);
    case WallTopMid => assert FromName("wall_top_mid.png") == Some(WallTopMid);
    case WallTopMidBare => assert FromName("wall_top_mid") == Some(WallTopMidBare);
    case WallMid => assert FromName("wall_mid.png") == Some(WallMid);
    case _ => assert false;
  }

  /** `NameRoundTrip` for WallCornerTopRight to WallRight, in declaration order. */
  lemma NameRoundTripC(t: Tile)
    requires t.WallCornerTopRight? || t.WallCornerRight? || t.WallCornerBottomLeft? ||
      t.WallLeft? || t.WallCornerBottomRight? || t.WallRight?
    ensures FromName(Name(t)) == Some(t)
  {
    match t
    case WallCornerTopRight => assert FromName("wall_corner_top_right.png") == Some(WallCornerTopRight);
    case WallCornerRight => assert FromName("wall_corner_right.png") == Some(WallCornerRight);
    case WallCornerBottomLeft => assert FromName("wall_corner_bottom_left.png") == Some(WallCornerBottomLeft);
    case WallLeft => assert FromName("wall_left.png") == Some(WallLeft);
    case WallCornerBottomRight => assert FromName("wall_corner_bottom_right.png") == Some(WallCornerBottomRight);
    case WallRight => assert FromName("wall_right.png") == Some(WallRight);
    case _ => assert false;
  }

  /** `NameRoundTrip` for WallSideMidLeft to WallSideTopLeft, in declaration order. */
  lemma NameRoundTripD(t: Tile)
    requires t.WallSideMidLeft? || t.WallSideMidRight? || t.WallSideFrontLeft? ||
      t.WallSideFrontRight? || t.WallSideTopLeft?
    ensures FromName(Name(t)) == Some(t)
  {
    match t
    case WallSideMidLeft => assert FromName("wall_side_mid_left.png") == Some(WallSideMidLeft);
    case WallSideMidRight => assert FromName("wall_side_mid_right.png") == Some(WallSideMidRight);
    case WallSideFrontLeft => assert FromName("wall_side_front_left.png") == Some(WallSideFrontLeft);
    case WallSideFrontRight => assert FromName("wall_side_front_right.png") == Some(WallSideFrontRight);
    case WallSideTopLeft => assert FromName("wall_side_top_left.png") == Some(WallSideTopLeft);
    case _ => assert false;
  }

  /** `NameRoundTrip` for WallSideTopRight to WallHole2, in declaration order. */
  lemma NameRoundTripE(t: Tile)
    requires t.WallSideTopRight? || t.WallCornerFrontLeft? || t.WallCornerFrontRight? ||
      t.WallHole1? || t.WallHole2?
    ensures FromName(Name(t)) == Some(t)
  {
    match t
    case WallSideTopRight => assert FromName("wall_side_top_right.png") == Some(WallSideTopRight);
    case WallCornerFrontLeft => assert FromName("wall_corner_front_left.png") == Some(WallCornerFrontLeft);
    case WallCornerFrontRight => assert FromName("wall_corner_front_right.png") == Some(WallCornerFrontRight);
    case WallHole1 => assert FromName("wall_hole_1.png") == Some(WallHole1);
    case WallHole2 => assert FromName("wall_hole_2.png") == Some(WallHole2);
    case _ => assert false;
  }

  /** `NameRoundTrip` for WallBannerRed to WallBannerYellow, in declaration order. */
  lemma NameRoundTripF(t: Tile)
    requires t.WallBannerRed? || t.WallBannerBlue? || t.WallBannerGreen? ||
      t.WallBannerYellow?
    ensures FromName(Name(t)) == Some(t)
  {
    match t
    case WallBannerRed => assert FromName("wall_banner_red.png") == Some(WallBannerRed);
    case WallBannerBlue => assert FromName("wall_banner_blue.png") == Some(WallBannerBlue);
    case WallBannerGreen => assert FromName("wall_banner_green.png") == Some(WallBannerGreen);
    case WallBannerYellow => assert FromName("wall_banner_yellow.png") == Some(WallBannerYellow);
    case _ => assert false;
  }

  /** `NameRoundTrip` for WallGoo to WallFountainTop, in declaration order. */
  lemma NameRoundTripG(t: Tile)
    requires t.WallGoo? || t.WallFountainMidRed? || t.WallFountainMidBlue? ||
      t.WallFountainTop?
    ensures FromName(Name(t)) == Some(t)
  {
    match t
    case WallGoo => assert FromName("wall_goo.png") == Some(WallGoo);
    case WallFountainMidRed => assert FromName("wall_fountain_mid_red") == Some(WallFountainMidRed);
    case WallFountainMidBlue => assert FromName("wall_fountain_mid_blue") == Some(WallFountainMidBlue);
    case WallFountainTop => assert FromName("wall_fountain_top.png") == Some(WallFountainTop);
    case _ => assert false;
  }

  /** Two tiles have the same sprite name exactly when they are the same tile. */
  lemma NameInjective(a: Tile, b: Tile)
    ensures Name(a) == Name(b) <==> a == b
  {
    NameRoundTrip(a);
    NameRoundTrip(b);
  }

  /** The cosmetic floor variants of the floor pass, in palette order. */
  const FloorVariants: seq<Tile> :=
    [Floor2, Floor3, Floor4, Floor5, Floor6, Floor7, Floor8]

  /** Wall features for a `wall_mid` that has a floor below it. */
  const WallMidTopFeatures: seq<Tile> :=
    [WallHole1, WallHole2, WallBannerRed, WallBannerBlue, WallBannerGreen,
     WallBannerYellow, WallGoo, WallFountainMidRed, WallFountainMidBlue]

  /** Wall features for a `wall_mid` without a floor below it. */
  const WallMidBottomFeatures: seq<Tile> := [WallHole1, WallHole2]
}
