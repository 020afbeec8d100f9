/**
 * The user resource (`UsuariosService`): the conditional GET decisions of the listing, of
 * a single user and of a user's image, and the image link attached to each user returned.
 * What the persistence layer returns (the fetched page, the user count, the user found by
 * id) is an input; HTTP responses are modelled by what they carry and their status.
 * Timestamps are milliseconds since the epoch, so `Date.after` is `>` and `Date.before`
 * is `<`.
 */
module Usuarios {
  import opened Wrappers
  import opened Decimal
  import opened Paginacion

  /** A hypermedia link as the service attaches it to a user. */
  datatype Link = Link(uri: string, rel: string, tipo: string)

  /** The stored profile image of a user. */
  datatype Imagen = Imagen(datos: seq<bv8>, tipo: string, descripcion: string, fechaActualizacion: int)

  /** A user entity; the service changes it only by adding links to it. */
  class Usuario {
    var id: int
    var fechaActualizacion: int
    var imagen: Option<Imagen>
    var links: seq<Link>

    constructor (id: int, fechaActualizacion: int, imagen: Option<Imagen>)
      ensures this.id == id && this.fechaActualizacion == fechaActualizacion
      ensures this.imagen == imagen && links == []
    {
      this.id := id;
      this.fechaActualizacion := fechaActualizacion;
      this.imagen := imagen;
      links := [];
    }

    /** `agregarLink`: appends a link and changes nothing else. */
    method AgregarLink(link: Link)
      modifies this`links
      ensures links == old(links) + [link]
    {
      links := links + [link];
    }
  }

  /** HTTP status of a response. */
  datatype Estado = Ok | NoModificado | NoEncontrado | ErrorInterno

  function Codigo(e: Estado): int {
    match e
    case Ok => 200
    case NoModificado => 304
    case NoEncontrado => 404
    case ErrorInterno => 500
  }

  /** Runtime exceptions that escape the service; the container answers them with 500. */
  datatype Fallo = ArgumentoIlegal | DivisionPorCero | PunteroNulo

  // ---------------------------------------------------------------------------------
  // The image link

  const PREFIJO_IMAGEN: string := "usuarios/"

  /** `crearLinkImagenUsuario`: the link to the image of the user with the given id. */
  function CrearLinkImagenUsuario(id: int): Link {
    Link(PREFIJO_IMAGEN + LongToString(id), "imagen", "image/*")
  }

  /** The user id an image link points to, if the uri has the shape "usuarios/{id}". */
  function IdDeUriImagen(uri: string): Option<int> {
    if |uri| >= |PREFIJO_IMAGEN| && uri[..|PREFIJO_IMAGEN|] == PREFIJO_IMAGEN
    then ParseLong(uri[|PREFIJO_IMAGEN|..])
    else None
  }

  /** The image link names its user: the id can be read back from the uri. */
  lemma ImageLinkNamesUser(id: int)
    ensures var l := CrearLinkImagenUsuario(id);
      IdDeUriImagen(l.uri) == Some(id) && l.rel == "imagen" && l.tipo == "image/*"
  {
    var l := CrearLinkImagenUsuario(id);
    assert l.uri[..|PREFIJO_IMAGEN|] == PREFIJO_IMAGEN;
    assert l.uri[|PREFIJO_IMAGEN|..] == LongToString(id);
    LongRoundTrip(id);
  }

  /** Different users get different image links. */
  lemma ImageLinkInjective(a: int, b: int)
    requires CrearLinkImagenUsuario(a) == CrearLinkImagenUsuario(b)
    ensures a == b
  {
    ImageLinkNamesUser(a);
    ImageLinkNamesUser(b);
  }

  // ---------------------------------------------------------------------------------
  // Listing

  /** The update dates of the users of a page, in order. */
  function Fechas(usuarios: seq<Usuario>): (f: seq<int>)
    reads usuarios
    ensures |f| == |usuarios|
    ensures forall i :: 0 <= i < |usuarios| ==> f[i] == usuarios[i].fechaActualizacion
  {
    if usuarios == [] then [] else [usuarios[0].fechaActualizacion] + Fechas(usuarios[1..])
  }

  /**
   * Whether the listing answers with the page: always without an If-Modified-Since date,
   * otherwise when some user of the page was updated strictly after it.
   */
  predicate HayActualizacion(fechas: seq<int>, modifiedSince: Option<int>) {
    modifiedSince.None? || exists i :: 0 <= i < |fechas| && fechas[i] > modifiedSince.value
  }

  function Max(s: seq<int>): int
    requires |s| > 0
  {
    if |s| == 1 then s[0] else if s[0] >= Max(s[1..]) then s[0] else Max(s[1..])
  }

  lemma {:induction false} MaxIsMaximum(s: seq<int>)
    requires |s| > 0
    ensures (exists i :: 0 <= i < |s| && s[i] == Max(s)) && forall i :: 0 <= i < |s| ==> s[i] <= Max(s)
  {
    if |s| > 1 {
      MaxIsMaximum(s[1..]);
      var j :| 0 <= j < |s| - 1 && s[1..][j] == Max(s[1..]);
      assert s[j + 1] == Max(s[1..]);
      if s[0] >= Max(s[1..]) {
        assert s[0] == Max(s);
      } else {
        assert s[j + 1] == Max(s);
      }
      forall i | 1 <= i < |s| ensures s[i] <= Max(s) {
        assert s[i] == s[1..][i - 1];
      }
    } else {
      assert s[0] == Max(s);
    }
  }

  /**
   * With a date, the listing answers with the page exactly when the newest update of the
   * page is after it; an empty page is never modified.
   */
  lemma {:induction false} ModifiedIffNewestAfter(fechas: seq<int>, t: int)
    ensures HayActualizacion(fechas, Some(t)) <==> |fechas| > 0 && Max(fechas) > t
  {
    if |fechas| > 0 {
      MaxIsMaximum(fechas);
    }
  }

  /** A later If-Modified-Since date can only turn 200 into 304, never the other way. */
  lemma ListingMonotone(fechas: seq<int>, t1: int, t2: int)
    requires t1 <= t2 && HayActualizacion(fechas, Some(t2))
    ensures HayActualizacion(fechas, Some(t1))
  {
  }

  /**
   * The flag `actualizado` of `listarUsuarios`: a search over the page that stops at the
   * first user updated after the date.
   */
  method CalcularActualizado(usuarios: seq<Usuario>, modifiedSince: Option<int>)
    returns (actualizado: bool)
    ensures actualizado == HayActualizacion(Fechas(usuarios), modifiedSince)
  {
    actualizado := false;
    if modifiedSince.Some? {
      var i := 0;
      while i < |usuarios|
        invariant 0 <= i <= |usuarios|
        invariant forall k :: 0 <= k < i ==> usuarios[k].fechaActualizacion <= modifiedSince.value
      {
        if usuarios[i].fechaActualizacion > modifiedSince.value {
          actualizado := true;
          break;
        }
        i := i + 1;
      }
    } else {
      actualizado := true;
    }
  }

  /** No user object appears twice in the page. */
  predicate Distintos(usuarios: seq<Usuario>) {
    forall i, j :: 0 <= i < j < |usuarios| ==> usuarios[i] != usuarios[j]
  }

  /** Each user of the page gains exactly one link, the link to its own image. */
  method AgregarLinksImagen(usuarios: seq<Usuario>)
    requires Distintos(usuarios)
    modifies usuarios`links
    ensures forall i :: 0 <= i < |usuarios| ==>
      usuarios[i].links == old(usuarios[i].links) + [CrearLinkImagenUsuario(usuarios[i].id)]
  {
    for i := 0 to |usuarios|
      invariant forall k :: 0 <= k < i ==>
        usuarios[k].links == old(usuarios[k].links) + [CrearLinkImagenUsuario(usuarios[k].id)]
      invariant forall k :: i <= k < |usuarios| ==> usuarios[k].links == old(usuarios[k].links)
    {
      var link := CrearLinkImagenUsuario(usuarios[i].id);
      usuarios[i].AgregarLink(link);
    }
  }

  datatype RespuestaListado =
    | ListadoOk(usuarios: seq<Usuario>, links: seq<PageLink>)
    | ListadoNoModificado
    | ListadoFallido(fallo: Fallo)
  {
    function Estado(): Estado {
      match this
      case ListadoOk(_, _) => Ok
      case ListadoNoModificado => NoModificado
      case ListadoFallido(_) => ErrorInterno
    }
  }

  /**
   * `listarUsuarios` on the page `usuarios` fetched from offset `inicio` with at most
   * `tamanhoPagina` rows, when `numeroUsuarios` users are stored. A negative offset or
   * page size is refused by the query; a page size of zero fails in the page arithmetic,
   * after the image links have been attached.
   */
  method ListarUsuarios(modifiedSince: Option<int>, inicio: int, tamanhoPagina: int,
                        usuarios: seq<Usuario>, numeroUsuarios: nat)
    returns (r: RespuestaListado)
    requires Distintos(usuarios)
    modifies usuarios`links
    ensures inicio < 0 || tamanhoPagina < 0 ==> r == ListadoFallido(ArgumentoIlegal)
    ensures inicio >= 0 && tamanhoPagina >= 0 ==>
      (r.Estado() == NoModificado <==> !HayActualizacion(Fechas(usuarios), modifiedSince))
    ensures inicio >= 0 && tamanhoPagina > 0 && HayActualizacion(Fechas(usuarios), modifiedSince) ==>
      r == ListadoOk(usuarios, LinksUsuarios(numeroUsuarios, tamanhoPagina, inicio))
    ensures inicio >= 0 && tamanhoPagina == 0 && HayActualizacion(Fechas(usuarios), modifiedSince) ==>
      r == ListadoFallido(DivisionPorCero)
    ensures inicio >= 0 && tamanhoPagina >= 0 && HayActualizacion(Fechas(usuarios), modifiedSince) ==>
      forall i :: 0 <= i < |usuarios| ==>
        usuarios[i].links == old(usuarios[i].links) + [CrearLinkImagenUsuario(usuarios[i].id)]
    ensures inicio < 0 || tamanhoPagina < 0 || !HayActualizacion(Fechas(usuarios), modifiedSince) ==>
      forall i :: 0 <= i < |usuarios| ==> usuarios[i].links == old(usuarios[i].links)
  {
    if inicio < 0 || tamanhoPagina < 0 {
      return ListadoFallido(ArgumentoIlegal);
    }
    var actualizado := CalcularActualizado(usuarios, modifiedSince);
    if actualizado {
      AgregarLinksImagen(usuarios);
      if tamanhoPagina == 0 {
        return ListadoFallido(DivisionPorCero);
      }
      var links := CrearLinksUsuarios(tamanhoPagina, inicio, numeroUsuarios);
      r := ListadoOk(usuarios, links);
    } else {
      r := ListadoNoModificado;
    }
  }

  // ---------------------------------------------------------------------------------
  // A single user

  /** Whether an update date counts as a modification since the If-Modified-Since date. */
  predicate ActualizadoDespues(fecha: int, modifiedSince: Option<int>) {
    modifiedSince.None? || fecha > modifiedSince.value
  }

  /** Decision of `find` on the update date of the user found, `None` when there is none. */
  function EstadoFind(fecha: Option<int>, modifiedSince: Option<int>): Estado {
    match fecha
    case None => NoEncontrado
    case Some(f) => if ActualizadoDespues(f, modifiedSince) then Ok else NoModificado
  }

  datatype RespuestaFind = FindOk(usuario: Usuario) | FindNoModificado | FindNoEncontrado {
    function Estado(): Estado {
      match this
      case FindOk(_) => Ok
      case FindNoModificado => NoModificado
      case FindNoEncontrado => NoEncontrado
    }
  }

  /** `find` on the user the id selects (`null` when no user has it). */
  method Find(usuario: Usuario?, modifiedSince: Option<int>) returns (r: RespuestaFind)
    modifies (if usuario == null then {} else {usuario})`links
    ensures usuario == null ==> r == FindNoEncontrado
    ensures r.Estado() == EstadoFind(if usuario == null then None else Some(usuario.fechaActualizacion), modifiedSince)
    ensures r.FindOk? ==>
      r.usuario == usuario && usuario.links == old(usuario.links) + [CrearLinkImagenUsuario(usuario.id)]
    ensures r.FindNoModificado? ==> usuario != null && usuario.links == old(usuario.links)
  {
    if usuario != null {
      if modifiedSince.None? || usuario.fechaActualizacion > modifiedSince.value {
        usuario.AgregarLink(CrearLinkImagenUsuario(usuario.id));
        return FindOk(usuario);
      }
      return FindNoModificado;
    }
    return FindNoEncontrado;
  }

  /** A page of one user answers as `find` answers for that user. */
  lemma SingleUserListingAgreesWithFind(fecha: int, modifiedSince: Option<int>)
    ensures HayActualizacion([fecha], modifiedSince) <==> EstadoFind(Some(fecha), modifiedSince) == Ok
  {
    if modifiedSince.Some? && fecha > modifiedSince.value {
      assert [fecha][0] > modifiedSince.value;
    }
  }

  /** With a date, a page answers with 200 exactly when `find` would for one of its users. */
  lemma ListingAgreesWithFind(fechas: seq<int>, t: int)
    ensures HayActualizacion(fechas, Some(t)) <==>
      exists i :: 0 <= i < |fechas| && EstadoFind(Some(fechas[i]), Some(t)) == Ok
  {
  }

  /** A later If-Modified-Since date can only turn 200 into 304 for `find` as well. */
  lemma FindMonotone(fecha: int, t1: int, t2: int)
    requires t1 <= t2 && EstadoFind(Some(fecha), Some(t2)) == Ok
    ensures EstadoFind(Some(fecha), Some(t1)) == Ok
  {
  }

  // ---------------------------------------------------------------------------------
  // A user's image

  /**
   * Decision of `recuperarImagen`: absent user, user without an image (the code then
   * dereferences a null image), image updated strictly before the date, or the image.
   */
  function EstadoImagen(presente: bool, fechaImagen: Option<int>, modifiedSince: Option<int>): Estado {
    if !presente then NoEncontrado
    else if fechaImagen.None? then ErrorInterno
    else if modifiedSince.Some? && fechaImagen.value < modifiedSince.value then NoModificado
    else Ok
  }

  datatype RespuestaImagen =
    | ImagenOk(datos: seq<bv8>, tipo: string, descripcion: string)
    | ImagenNoModificada
    | ImagenNoEncontrada
    | ImagenFallida(fallo: Fallo)
  {
    function Estado(): Estado {
      match this
      case ImagenOk(_, _, _) => Ok
      case ImagenNoModificada => NoModificado
      case ImagenNoEncontrada => NoEncontrado
      case ImagenFallida(_) => ErrorInterno
    }
  }

  /**
   * `recuperarImagen` on the user the id selects: the image's bytes with its content type
   * and its description as a header, unless the status says otherwise.
   */
  function RecuperarImagen(usuario: Usuario?, modifiedSince: Option<int>): (r: RespuestaImagen)
    reads usuario
    ensures r.Estado() == EstadoImagen(usuario != null,
      if usuario != null && usuario.imagen.Some? then Some(usuario.imagen.value.fechaActualizacion) else None,
      modifiedSince)
    ensures r.ImagenOk? ==>
      (usuario != null && usuario.imagen.Some? &&
       r.datos == usuario.imagen.value.datos && r.tipo == usuario.imagen.value.tipo &&
       r.descripcion == usuario.imagen.value.descripcion)
    ensures r.ImagenFallida? ==> r.fallo == PunteroNulo
  {
    if usuario == null then ImagenNoEncontrada
    else match usuario.imagen
      case None => ImagenFallida(PunteroNulo)
      case Some(img) =>
        if modifiedSince.Some? && img.fechaActualizacion < modifiedSince.value then ImagenNoModificada
        else ImagenOk(img.datos, img.tipo, img.descripcion)
  }

  /**
   * On a date equal to the update date, `find` answers 304 while `recuperarImagen`
   * answers 200: the first compares with "after", the second with "before".
   */
  lemma EqualDateAsymmetry(t: int)
    ensures Codigo(EstadoFind(Some(t), Some(t))) == 304
    ensures Codigo(EstadoImagen(true, Some(t), Some(t))) == 200
  {
  }

  /**
   * `recuperarImagen` answers 304 exactly when the image is older than the date, that is
   * when `find` would not answer 200 on that date and the two dates differ.
   */
  lemma ImageNotModifiedVersusFind(fecha: int, t: int)
    ensures EstadoImagen(true, Some(fecha), Some(t)) == NoModificado <==>
      EstadoFind(Some(fecha), Some(t)) != Ok && fecha != t
  {
  }

  /** A later If-Modified-Since date can only turn 200 into 304 for the image too. */
  lemma ImageMonotone(fecha: int, t1: int, t2: int)
    requires t1 <= t2 && EstadoImagen(true, Some(fecha), Some(t2)) == Ok
    ensures EstadoImagen(true, Some(fecha), Some(t1)) == Ok
  {
  }
}
