/**
 The marker icon resolver of the trip map: a category key and a visited flag give the
 descriptor handed to the mapping library's icon constructor.
 */
module Icons {
  import opened Keys

  /** A pixel offset or extent, `[x, y]`. */
  datatype Point = Point(x: int, y: int)

  datatype IconDescriptor = IconDescriptor(
    iconUrl: string,
    iconSize: Point,
    iconAnchor: Point,
    popupAnchor: Point)

  /** The asset naming convention: `/icons/{key}.png`, or `/icons/{key}-visited.png` once visited. */
  function ConventionPath(key: string, visited: bool): string {
    "/icons/" + key + (if visited then "-visited.png" else ".png")
  }

  /**
   The icon for a record. The eight image paths follow the naming convention; a key that
   names no category gets an empty image path. Geometry is the same for every input.
   */
  function GetIcon(category: string, visited: bool): (r: IconDescriptor)
    ensures r.iconSize == Point(32, 32)
    ensures r.iconAnchor == Point(16, 32)
    ensures r.popupAnchor == Point(0, -32)
    ensures ParseCategory(category).Some? <==> r.iconUrl != ""
  {
    var iconUrl :=
      if category == "jyotirlinga" then
        (if visited then "/icons/jyotirlinga-visited.png" else "/icons/jyotirlinga.png")
      else if category == "jyotipeeth" then
        (if visited then "/icons/jyotipeeth-visited.png" else "/icons/jyotipeeth.png")
      else if category == "shaktipeeth" then
        (if visited then "/icons/shaktipeeth-visited.png" else "/icons/shaktipeeth.png")
      else if category == "krishna" then
        (if visited then "/icons/krishna-visited.png" else "/icons/krishna.png")
      else "";
    IconDescriptor(iconUrl, Point(32, 32), Point(16, 32), Point(0, -32))
  }

  /** Every known category's image path follows the naming convention. */
  lemma GetIconFollowsConvention(c: Category, visited: bool)
    ensures GetIcon(Key(c), visited).iconUrl == ConventionPath(Key(c), visited)
  {
    match c
    case Jyotirlinga => JyotirlingaConvention(visited);
    case Jyotipeeth => JyotipeethConvention(visited);
    case Shaktipeeth => ShaktipeethConvention(visited);
    case Krishna => KrishnaConvention(visited);
  }

  lemma JyotirlingaConvention(visited: bool)
    ensures GetIcon("jyotirlinga", visited).iconUrl == ConventionPath("jyotirlinga", visited)
  {
  }

  lemma JyotipeethConvention(visited: bool)
    ensures GetIcon("jyotipeeth", visited).iconUrl == ConventionPath("jyotipeeth", visited)
  {
  }

  lemma ShaktipeethConvention(visited: bool)
    ensures GetIcon("shaktipeeth", visited).iconUrl == ConventionPath("shaktipeeth", visited)
  {
  }

  lemma KrishnaConvention(visited: bool)
    ensures GetIcon("krishna", visited).iconUrl == ConventionPath("krishna", visited)
  {
  }

  /** The eight (category, visited) pairs get eight different image paths. */
  lemma IconUrlsDistinct(c1: Category, v1: bool, c2: Category, v2: bool)
    ensures GetIcon(Key(c1), v1).iconUrl == GetIcon(Key(c2), v2).iconUrl <==> c1 == c2 && v1 == v2
  {
  }

  /** Two inputs can only differ in the image path. */
  lemma IconGeometryUniform(cat1: string, v1: bool, cat2: string, v2: bool)
    ensures GetIcon(cat1, v1).(iconUrl := "") == GetIcon(cat2, v2).(iconUrl := "")
  {
  }
}
