/**
 * The pagination links of the user listing (`crearLinksUsuarios`): from the number of
 * stored users, the page size and the zero-based record offset of the requested page it
 * builds the links "primeraPagina", "paginaAnterior", "proximaPagina" and "ultimaPagina".
 * A link is modelled by the two query parameters it carries (the start offset and the
 * page size) and its relation; the base path it is built on is left out.
 */
module Paginacion {

  datatype Rel = PrimeraPagina | PaginaAnterior | ProximaPagina | UltimaPagina

  /** The relation as the link carries it in the response. */
  function RelName(r: Rel): string {
    match r
    case PrimeraPagina => "primeraPagina"
    case PaginaAnterior => "paginaAnterior"
    case ProximaPagina => "proximaPagina"
    case UltimaPagina => "ultimaPagina"
  }

  /** Position of a relation in the list the builder returns. */
  function Rank(r: Rel): nat {
    match r
    case PrimeraPagina => 0
    case PaginaAnterior => 1
    case ProximaPagina => 2
    case UltimaPagina => 3
  }

  /** A navigation link: its relation, its start offset and its page size. */
  datatype PageLink = PageLink(rel: Rel, inicio: int, tamanho: int)

  const INT_MAX: int := 0x7fff_ffff
  const LONG_MAX: int := 0x7fff_ffff_ffff_ffff
  /** 2^53: below it every count is a double exactly, and the double quotient rounds up right. */
  const EXACT_DOUBLE_LIMIT: int := 0x20_0000_0000_0000

  function Abs(x: int): nat {
    if x < 0 then -x else x
  }

  function Min(a: int, b: int): int {
    if a <= b then a else b
  }

  /** Java's integer division, which truncates toward zero. */
  function JavaDiv(a: int, b: int): int
    requires b != 0
  {
    if (a < 0) == (b < 0) then Abs(a) / Abs(b) else -(Abs(a) / Abs(b))
  }

  /** Number of pages needed for `total` records, `size` per page (the rounded-up quotient). */
  function NumeroPaginas(total: nat, size: int): nat
    requires size > 0
  {
    (total + size - 1) / size
  }

  /** Page that holds the record at `inicio`, by Java's integer division. */
  function PaginaActual(inicio: int, size: int): int
    requires size > 0
  {
    JavaDiv(inicio, size)
  }

  /**
   * The links the builder returns: first, previous when the current page is past the
   * first, next when it is before the last, and last. The previous link goes one page
   * back, but never further than to the last page.
   */
  function LinksUsuarios(total: nat, size: int, inicio: int): seq<PageLink>
    requires size > 0
  {
    var pc := NumeroPaginas(total, size);
    var cp := PaginaActual(inicio, size);
    [PageLink(PrimeraPagina, 0, size)]
    + (if cp > 0 then [PageLink(PaginaAnterior, (Min(cp, pc) - 1) * size, size)] else [])
    + (if cp < pc - 1 then [PageLink(ProximaPagina, (cp + 1) * size, size)] else [])
    + [PageLink(UltimaPagina, (pc - 1) * size, size)]
  }

  /** The names of the relations are distinct, so a client can tell the links apart. */
  lemma RelNameInjective(a: Rel, b: Rel)
    requires RelName(a) == RelName(b)
    ensures a == b
  {
  }

  predicate HasRel(links: seq<PageLink>, r: Rel) {
    exists i :: 0 <= i < |links| && links[i].rel == r
  }

  /**
   * `crearLinksUsuarios`: appends the links to a list one by one, choosing the offset of
   * the previous link by the two branches of the source.
   */
  method CrearLinksUsuarios(tamanhoPagina: int, inicio: int, numeroUsuarios: nat)
    returns (links: seq<PageLink>)
    requires tamanhoPagina > 0
    ensures links == LinksUsuarios(numeroUsuarios, tamanhoPagina, inicio)
  {
    var numeroPaginas := (numeroUsuarios + tamanhoPagina - 1) / tamanhoPagina;
    var paginaActual := JavaDiv(inicio, tamanhoPagina);
    links := [PageLink(PrimeraPagina, 0, tamanhoPagina)];
    var anterior: seq<PageLink> := [];
    if paginaActual > 0 {
      if paginaActual <= numeroPaginas {
        anterior := [PageLink(PaginaAnterior, (paginaActual - 1) * tamanhoPagina, tamanhoPagina)];
      } else {
        anterior := [PageLink(PaginaAnterior, (numeroPaginas - 1) * tamanhoPagina, tamanhoPagina)];
      }
    }
    links := links + anterior;
    var proxima: seq<PageLink> := [];
    if paginaActual < numeroPaginas - 1 {
      proxima := [PageLink(ProximaPagina, (paginaActual + 1) * tamanhoPagina, tamanhoPagina)];
    }
    links := links + proxima;
    links := links + [PageLink(UltimaPagina, (numeroPaginas - 1) * tamanhoPagina, tamanhoPagina)];
  }

  // ---------------------------------------------------------------------------------
  // Arithmetic of pages

  /** For a non-negative offset Java's division agrees with the floor: the page holds it. */
  lemma PaginaActualContieneInicio(inicio: int, size: int)
    requires inicio >= 0 && size > 0
    ensures 0 <= PaginaActual(inicio, size) == inicio / size
    ensures PaginaActual(inicio, size) * size <= inicio < (PaginaActual(inicio, size) + 1) * size
  {
    var q, r := inicio / size, inicio % size;
    assert inicio == q * size + r;
    assert (q + 1) * size == q * size + size;
  }

  /** The page count is the least number of pages that holds every record. */
  lemma NumeroPaginasEsTecho(total: nat, size: int)
    requires size > 0
    ensures NumeroPaginas(total, size) * size >= total
    ensures total > 0 ==> (NumeroPaginas(total, size) - 1) * size < total
    ensures NumeroPaginas(total, size) == 0 <==> total == 0
  {
    var n := NumeroPaginas(total, size);
    var r := (total + size - 1) % size;
    assert total + size - 1 == n * size + r;
    assert (n - 1) * size == n * size - size;
  }

  lemma NumeroPaginasMinimo(total: nat, size: int, m: int)
    requires size > 0 && m * size >= total
    ensures m >= NumeroPaginas(total, size)
  {
    var n := NumeroPaginas(total, size);
    NumeroPaginasEsTecho(total, size);
    if total > 0 && m < n {
      assert m <= n - 1;
      MulMonotone(m, n - 1, size);
    } else if total == 0 {
      assert n == 0;
      assert m >= 0 by {
        if m < 0 { MulMonotone(m, -1, size); }
      }
    }
  }

  lemma MulMonotone(a: int, b: int, c: int)
    requires a <= b && c > 0
    ensures a * c <= b * c
  {
    assert b * c - a * c == (b - a) * c;
  }

  lemma MulMultiple(k: int, size: int)
    requires size > 0
    ensures (k * size) % size == 0
  {
    var q, r := (k * size) / size, (k * size) % size;
    assert k * size == q * size + r;
    assert (k - q) * size == r;
    if k - q > 0 {
      MulMonotone(1, k - q, size);
    } else if k - q < 0 {
      MulMonotone(k - q, -1, size);
    }
  }

  // ---------------------------------------------------------------------------------
  // Shape of the result

  /** The four shapes of the result, one per combination of previous and next. */
  lemma LinksCases(total: nat, size: int, inicio: int)
    requires size > 0
    ensures var pc, cp, l := NumeroPaginas(total, size), PaginaActual(inicio, size), LinksUsuarios(total, size, inicio);
      var first, last := PageLink(PrimeraPagina, 0, size), PageLink(UltimaPagina, (pc - 1) * size, size);
      var prev, next := PageLink(PaginaAnterior, (Min(cp, pc) - 1) * size, size), PageLink(ProximaPagina, (cp + 1) * size, size);
      (cp > 0 && cp < pc - 1 ==> l == [first, prev, next, last]) &&
      (cp > 0 && cp >= pc - 1 ==> l == [first, prev, last]) &&
      (cp <= 0 && cp < pc - 1 ==> l == [first, next, last]) &&
      (cp <= 0 && cp >= pc - 1 ==> l == [first, last])
  {
  }

  /**
   * The result starts with the first page at offset 0, ends with the last page at the
   * offset of page `pc - 1`, and holds 2 to 4 links whose relations keep the order
   * first, previous, next, last (so no relation appears twice).
   */
  lemma {:induction false} LinksShape(total: nat, size: int, inicio: int)
    requires size > 0
    ensures var l := LinksUsuarios(total, size, inicio);
      2 <= |l| <= 4 &&
      l[0] == PageLink(PrimeraPagina, 0, size) &&
      l[|l| - 1] == PageLink(UltimaPagina, (NumeroPaginas(total, size) - 1) * size, size) &&
      forall i, j :: 0 <= i < j < |l| ==> Rank(l[i].rel) < Rank(l[j].rel)
  {
    LinksCases(total, size, inicio);
  }

  /**
   * In the names the response carries, the list opens with "primeraPagina", closes with
   * "ultimaPagina", and never names the same relation twice.
   */
  lemma {:induction false} LinkNames(total: nat, size: int, inicio: int)
    requires size > 0
    ensures var l := LinksUsuarios(total, size, inicio);
      RelName(l[0].rel) == "primeraPagina" && RelName(l[|l| - 1].rel) == "ultimaPagina" &&
      forall i, j :: 0 <= i < j < |l| ==> RelName(l[i].rel) != RelName(l[j].rel)
  {
    var l := LinksUsuarios(total, size, inicio);
    LinksShape(total, size, inicio);
    forall i, j | 0 <= i < j < |l| ensures RelName(l[i].rel) != RelName(l[j].rel) {
      if RelName(l[i].rel) == RelName(l[j].rel) {
        RelNameInjective(l[i].rel, l[j].rel);
      }
    }
  }

  /**
   * A "paginaAnterior" link is present exactly when the current page is past the first;
   * it points one page back when the current page is at most the page count, and to the
   * last page otherwise.
   */
  lemma {:induction false} PreviousLink(total: nat, size: int, inicio: int)
    requires size > 0
    ensures var l, cp, pc := LinksUsuarios(total, size, inicio), PaginaActual(inicio, size), NumeroPaginas(total, size);
      (HasRel(l, PaginaAnterior) <==> cp > 0) &&
      forall i :: 0 <= i < |l| && l[i].rel == PaginaAnterior ==>
        l[i].inicio == (if cp <= pc then (cp - 1) * size else (pc - 1) * size)
  {
    LinksCases(total, size, inicio);
    var l, cp := LinksUsuarios(total, size, inicio), PaginaActual(inicio, size);
    if cp > 0 {
      assert l[1].rel == PaginaAnterior;
    }
  }

  /** A "proximaPagina" link is present exactly when the current page is before the last. */
  lemma {:induction false} NextLink(total: nat, size: int, inicio: int)
    requires size > 0
    ensures var l, cp, pc := LinksUsuarios(total, size, inicio), PaginaActual(inicio, size), NumeroPaginas(total, size);
      (HasRel(l, ProximaPagina) <==> cp < pc - 1) &&
      forall i :: 0 <= i < |l| && l[i].rel == ProximaPagina ==> l[i].inicio == (cp + 1) * size
  {
    LinksCases(total, size, inicio);
    var l, cp, pc: int := LinksUsuarios(total, size, inicio), PaginaActual(inicio, size), NumeroPaginas(total, size);
    if cp < pc - 1 {
      assert l[|l| - 2].rel == ProximaPagina;
    }
  }

  /** Every link carries the requested page size and starts on a page boundary. */
  lemma {:induction false} LinksOnPageBoundaries(total: nat, size: int, inicio: int)
    requires size > 0
    ensures var l := LinksUsuarios(total, size, inicio);
      forall i :: 0 <= i < |l| ==> l[i].tamanho == size && l[i].inicio % size == 0
  {
    LinksCases(total, size, inicio);
    var pc: int, cp: int := NumeroPaginas(total, size), PaginaActual(inicio, size);
    MulMultiple(0, size);
    assert 0 * size == 0;
    MulMultiple(Min(cp, pc) - 1, size);
    MulMultiple(cp + 1, size);
    MulMultiple(pc - 1, size);
  }

  /**
   * For a non-empty collection and a non-negative offset every link points at a page that
   * holds at least one record: its offset lies in [0, total).
   */
  lemma {:induction false} LinksWithinCollection(total: nat, size: int, inicio: int)
    requires size > 0 && total > 0 && inicio >= 0
    ensures var l := LinksUsuarios(total, size, inicio);
      forall i :: 0 <= i < |l| ==> 0 <= l[i].inicio < total
  {
    var l := LinksUsuarios(total, size, inicio);
    var pc: int, cp: int := NumeroPaginas(total, size), PaginaActual(inicio, size);
    NumeroPaginasEsTecho(total, size);
    PaginaActualContieneInicio(inicio, size);
    assert cp >= 0 && pc >= 1;
    var last, prev, next := (pc - 1) * size, (Min(cp, pc) - 1) * size, (cp + 1) * size;
    assert 0 <= last < total by {
      MulMonotone(0, pc - 1, size);
    }
    assert cp > 0 ==> 0 <= prev <= last by {
      if cp > 0 {
        MulMonotone(0, Min(cp, pc) - 1, size);
        MulMonotone(Min(cp, pc) - 1, pc - 1, size);
      }
    }
    assert cp < pc - 1 ==> 0 <= next <= last by {
      if cp < pc - 1 {
        MulMonotone(0, cp + 1, size);
        MulMonotone(cp + 1, pc - 1, size);
      }
    }
    LinksCases(total, size, inicio);
    forall i | 0 <= i < |l| ensures 0 <= l[i].inicio < total {
      assert l[i].inicio == 0 || (cp > 0 && l[i].inicio == prev) || (cp < pc - 1 && l[i].inicio == next) || l[i].inicio == last;
    }
  }

  /**
   * An empty collection has no pages, so the last link (and a previous link, when the
   * offset is past the first page) points at offset `-size`: the code does not clamp it.
   */
  lemma EmptyCollectionLinks(size: int, inicio: int)
    requires size > 0 && inicio >= 0
    ensures LinksUsuarios(0, size, inicio) ==
      if inicio < size then [PageLink(PrimeraPagina, 0, size), PageLink(UltimaPagina, -size, size)]
      else [PageLink(PrimeraPagina, 0, size), PageLink(PaginaAnterior, -size, size), PageLink(UltimaPagina, -size, size)]
  {
    PaginaActualContieneInicio(inicio, size);
    var cp := PaginaActual(inicio, size);
    assert NumeroPaginas(0, size) == 0;
    if inicio >= size {
      assert cp >= 1 by {
        if cp <= 0 { MulMonotone(cp + 1, 1, size); }
      }
    } else {
      assert cp == 0;
    }
  }

  /** An offset on or past the start of the last page never yields a next link. */
  lemma {:induction false} NoNextOnLastPage(total: nat, size: int, inicio: int)
    requires size > 0 && inicio >= (NumeroPaginas(total, size) - 1) * size
    ensures !HasRel(LinksUsuarios(total, size, inicio), ProximaPagina)
  {
    NextLink(total, size, inicio);
    var pc: int, cp: int := NumeroPaginas(total, size), JavaDiv(inicio, size);
    if inicio >= 0 {
      PaginaActualContieneInicio(inicio, size);
      if cp < pc - 1 {
        MulMonotone(cp + 1, pc - 1, size);
      }
    } else {
      assert pc - 1 < 0 by {
        if pc - 1 >= 0 { MulMonotone(0, pc - 1, size); }
      }
    }
  }

  /**
   * When the offset is a page boundary inside the collection, the previous and next
   * links are exactly one page back and one page forward.
   */
  lemma {:induction false} NeighboursOfAlignedOffset(total: nat, size: int, inicio: int)
    requires size > 0 && inicio >= 0 && inicio % size == 0 && inicio < total
    ensures var l := LinksUsuarios(total, size, inicio);
      forall i :: 0 <= i < |l| ==>
        (l[i].rel == PaginaAnterior ==> l[i].inicio == inicio - size) &&
        (l[i].rel == ProximaPagina ==> l[i].inicio == inicio + size)
  {
    PreviousLink(total, size, inicio);
    NextLink(total, size, inicio);
    PaginaActualContieneInicio(inicio, size);
    NumeroPaginasEsTecho(total, size);
    var pc: int, cp: int := NumeroPaginas(total, size), PaginaActual(inicio, size);
    assert inicio == cp * size;
    assert (cp - 1) * size == cp * size - size;
    assert (cp + 1) * size == cp * size + size;
    assert cp < pc by {
      if cp >= pc { MulMonotone(pc, cp, size); }
    }
  }

  /**
   * With an `int` offset and page size and a count below 2^53, where the page count
   * computed on doubles equals the integer one, every offset the builder computes fits in
   * a `long`, so the products never overflow.
   */
  lemma {:induction false} OffsetsFitInLong(total: nat, size: int, inicio: int)
    requires 0 < size <= INT_MAX && 0 <= inicio <= INT_MAX && total < EXACT_DOUBLE_LIMIT
    ensures var l := LinksUsuarios(total, size, inicio);
      forall i :: 0 <= i < |l| ==> -INT_MAX <= l[i].inicio <= LONG_MAX
  {
    var l := LinksUsuarios(total, size, inicio);
    if total > 0 {
      LinksWithinCollection(total, size, inicio);
    } else {
      EmptyCollectionLinks(size, inicio);
    }
  }

  /** The worked examples: 25 records in pages of 10, at offsets 0, 10 and 20. */
  lemma TwentyFiveRecordsExamples()
    ensures LinksUsuarios(25, 10, 0) ==
      [PageLink(PrimeraPagina, 0, 10), PageLink(ProximaPagina, 10, 10), PageLink(UltimaPagina, 20, 10)]
    ensures LinksUsuarios(25, 10, 10) ==
      [PageLink(PrimeraPagina, 0, 10), PageLink(PaginaAnterior, 0, 10), PageLink(ProximaPagina, 20, 10), PageLink(UltimaPagina, 20, 10)]
    ensures LinksUsuarios(25, 10, 20) ==
      [PageLink(PrimeraPagina, 0, 10), PageLink(PaginaAnterior, 10, 10), PageLink(UltimaPagina, 20, 10)]
  {
  }

  /**
   * An offset that is not a page boundary is truncated to its page: at offset 15 the
   * previous link is 15 records back and the next one only 5 records ahead.
   */
  lemma UnalignedOffsetExample()
    ensures LinksUsuarios(25, 10, 15) ==
      [PageLink(PrimeraPagina, 0, 10), PageLink(PaginaAnterior, 0, 10), PageLink(ProximaPagina, 20, 10), PageLink(UltimaPagina, 20, 10)]
  {
  }
}
