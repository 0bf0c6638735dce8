/** The record types of the catalog (`types.ts`). */
module Catalog {
  import opened Wrappers

  /** The lifecycle flag of a product; `Eliminado` is a soft delete. */
  datatype Estado = Disponible | Agotado | Eliminado

  /** A product. `precio` is kept as an opaque integer amount and the values
      of the open `etiquetas` record as strings. */
  datatype Product = Product(
    id: string,
    nombre: string,
    descripcion: string,
    precio: int,
    mostrar_precio: bool,
    categorias: seq<string>,
    fotos: seq<string>,
    link_video: Option<string>,
    etiquetas: map<string, string>,
    estado: Estado,
    likes: nat,
    fecha_desactivacion: Option<string>,
    fecha_creacion: string)

  /** A category; products refer to it by `nombre`. */
  datatype Category = Category(id: string, nombre: string, imagen: string)

  /** `Omit<Product, 'id' | 'fecha_creacion' | 'likes'>`: what a caller hands to product creation. */
  datatype Draft = Draft(
    nombre: string,
    descripcion: string,
    precio: int,
    mostrar_precio: bool,
    categorias: seq<string>,
    fotos: seq<string>,
    link_video: Option<string>,
    etiquetas: map<string, string>,
    estado: Estado,
    fecha_desactivacion: Option<string>)

  function ProductId(p: Product): string { p.id }

  function CategoryId(c: Category): string { c.id }

  /** The part of a product a draft describes. */
  function ToDraft(p: Product): Draft {
    Draft(p.nombre, p.descripcion, p.precio, p.mostrar_precio, p.categorias, p.fotos,
          p.link_video, p.etiquetas, p.estado, p.fecha_desactivacion)
  }

  /** `{...draft, id, fecha_creacion: now, likes: 0}`: the draft completed with a
      new id, the creation time and no likes. */
  function FromDraft(d: Draft, id: string, now: string): (p: Product)
    ensures ToDraft(p) == d
    ensures p.id == id && p.fecha_creacion == now && p.likes == 0
  {
    Product(id, d.nombre, d.descripcion, d.precio, d.mostrar_precio, d.categorias, d.fotos,
            d.link_video, d.etiquetas, d.estado, 0, d.fecha_desactivacion, now)
  }

  /** A product is listed unless it was soft-deleted. */
  predicate IsListed(p: Product) {
    p.estado != Eliminado
  }
}
