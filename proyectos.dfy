/**
 * The architectural projects section: the project feed is mapped, one card per
 * project and in the same order, to the cards of the apple-style carousel.
 */
module ProyectosArquitectonicos {
  import opened Wrappers
  import AssetPath
  import Feed

  /**
   * A project record. A field that is missing, null, or falsy in the way the
   * section tests it (`imagen ||`, `id ||`) is `None` or, for the id, may be 0.
   */
  datatype Project = Project(
    id: Option<int>,
    nombre: Option<string>,
    ubicacion: Option<string>,
    anio: Option<int>,
    descripcion: Option<string>,
    imagen: Option<string>)

  const DefaultProjectImage: string := "default-project-image.png"

  /** The React key: the id when it is truthy, otherwise the position. */
  datatype CardKey = ById(id: int) | ByIndex(index: nat)

  /** The data handed to one carousel card. */
  datatype ProjectCard = ProjectCard(
    key: CardKey,
    index: nat,
    id: Option<int>,
    title: Option<string>,
    category: Option<string>,
    year: Option<int>,
    description: Option<string>,
    src: string)

  /** `imagen` when it is a non-empty string, otherwise the fallback image. */
  function ImagePath(p: Project): (r: string)
    ensures p.imagen.Some? && p.imagen.value != "" ==> r == p.imagen.value
    ensures (p.imagen.None? || p.imagen.value == "") ==> r == DefaultProjectImage
  {
    if p.imagen.Some? && p.imagen.value != "" then p.imagen.value else DefaultProjectImage
  }

  function KeyOf(p: Project, index: nat): (k: CardKey)
    ensures k.ById? <==> p.id.Some? && p.id.value != 0
    ensures k.ById? ==> k.id == p.id.value
    ensures k.ByIndex? ==> k.index == index
  {
    if p.id.Some? && p.id.value != 0 then ById(p.id.value) else ByIndex(index)
  }

  /**
   * The card for the project at `index`: the fields renamed (title from nombre,
   * category from ubicacion, year from año), its own position as index, and the
   * image resolved against the prefix.
   */
  function ToProjectCard(basePath: string, index: nat, p: Project): (c: ProjectCard)
    ensures c.index == index && c.key == KeyOf(p, index)
    ensures c.id == p.id && c.title == p.nombre && c.category == p.ubicacion
    ensures c.year == p.anio && c.description == p.descripcion
    ensures |c.src| > |basePath| && c.src[..|basePath| + 1] == basePath + "/"
    ensures c.src[|basePath| + 1..] == AssetPath.StripLeadingSlash(ImagePath(p))
    ensures (p.imagen.None? || p.imagen.value == "") ==> c.src == basePath + "/" + DefaultProjectImage
  {
    var src := AssetPath.Normalize(basePath, ImagePath(p));
    assert src[|basePath| + 1..] == AssetPath.StripLeadingSlash(ImagePath(p)) by {
      if AssetPath.StartsWithSlash(ImagePath(p)) {
        assert "/" + src[|basePath| + 1..] == "/" + AssetPath.StripLeadingSlash(ImagePath(p));
      }
    }
    ProjectCard(KeyOf(p, index), index, p.id, p.nombre, p.ubicacion, p.anio, p.descripcion, src)
  }

  /** `data.map((proyecto, index) => …)`: one card per project, in order, each knowing its position. */
  function ProjectCards(basePath: string, projects: seq<Project>): (r: seq<ProjectCard>)
    ensures |r| == |projects|
    ensures forall i :: 0 <= i < |projects| ==> r[i] == ToProjectCard(basePath, i, projects[i])
  {
    seq(|projects|, i requires 0 <= i < |projects| => ToProjectCard(basePath, i, projects[i]))
  }

  /** Every card's index is its position, so the indexes are 0, 1, 2, … without gaps or repeats. */
  lemma CardIndexesArePositions(basePath: string, projects: seq<Project>)
    ensures forall i :: 0 <= i < |projects| ==> ProjectCards(basePath, projects)[i].index == i
    ensures forall i, j :: 0 <= i < j < |projects| ==>
              ProjectCards(basePath, projects)[i].index != ProjectCards(basePath, projects)[j].index
  {
  }

  /** Cards of projects without a truthy id are keyed by position, so their keys are pairwise distinct. */
  lemma IdlessKeysDistinct(basePath: string, projects: seq<Project>, i: nat, j: nat)
    requires i < j < |projects|
    requires projects[i].id.None? && projects[j].id.None?
    ensures ProjectCards(basePath, projects)[i].key != ProjectCards(basePath, projects)[j].key
  {
  }

  datatype Display = Spinner | ErrorMessage(error: Feed.LoadError) | Carousel(cards: seq<ProjectCard>) | NothingToShow

  class Section {
    const basePath: string
    var carouselItems: seq<ProjectCard>
    var isLoading: bool
    var error: Option<Feed.LoadError>

    constructor(basePath: string)
      ensures this.basePath == basePath && carouselItems == [] && isLoading && error.None?
    {
      this.basePath := basePath;
      carouselItems, isLoading, error := [], true, None;
    }

    /** The render choice: loading first, then the error, then the carousel when it has cards. */
    function View(): (d: Display)
      reads this
      ensures d.Spinner? <==> isLoading
      ensures d.ErrorMessage? <==> !isLoading && error.Some?
      ensures d.Carousel? <==> !isLoading && error.None? && |carouselItems| > 0
      ensures d.Carousel? ==> d.cards == carouselItems
    {
      if isLoading then Spinner
      else if error.Some? then ErrorMessage(error.value)
      else if |carouselItems| > 0 then Carousel(carouselItems)
      else NothingToShow
    }

    /** The start of the load effect. */
    method BeginLoad()
      modifies this
      ensures isLoading && error.None? && carouselItems == old(carouselItems)
    {
      isLoading := true;
      error := None;
    }

    /** The settled fetch: the mapped cards, or an error and no cards. */
    method FinishLoad(resp: Feed.Response<Project>)
      modifies this
      ensures !isLoading
      ensures Feed.Decode(resp).Success? ==>
                carouselItems == ProjectCards(basePath, Feed.Decode(resp).value) && error == old(error)
      ensures Feed.Decode(resp).Failure? ==>
                carouselItems == [] && error == Some(Feed.Decode(resp).error) && View() == ErrorMessage(error.value)
    {
      var decoded := Feed.Decode(resp);
      if decoded.Success? {
        carouselItems := ProjectCards(basePath, decoded.value);
      } else {
        error := Some(decoded.error);
        carouselItems := [];
      }
      isLoading := false;
    }
  }
}
