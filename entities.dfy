/** The two stored record shapes and the repositories that hold them. A
    repository is a table keyed by generated id; column length limits are the
    database's business and are not modelled. */
module Entities {
  import opened Js

  /** A crawled post. `externalId` is the column the source calls
      `ariaLabelledBy`: the id derived from the search card's reference.
      `content` is nullable and stays `None` until a second save fills it. */
  datatype Post = Post(
    keyword: string,
    externalId: string,
    title: string,
    link: string,
    content: Option<string>)

  /** A search keyword as listed in the keywords table. */
  datatype Keyword = Keyword(id: nat, name: string)

  /** The posts table: rows by id, and the next id the database will hand out. */
  class PostRepository {
    var rows: map<nat, Post>
    var nextId: nat

    /** Every stored id was handed out before. */
    predicate Valid()
      reads this
    {
      forall id :: id in rows ==> id < nextId
    }

    constructor ()
      ensures Valid() && rows == map[] && nextId == 0
    {
      rows := map[];
      nextId := 0;
    }

    /** `save` of a new entity: the row gets a fresh id. */
    method Insert(p: Post) returns (id: nat)
      requires Valid()
      modifies this
      ensures Valid()
      ensures id == old(nextId) && id !in old(rows)
      ensures rows == old(rows)[id := p] && nextId == id + 1
    {
      id := nextId;
      rows := rows[id := p];
      nextId := nextId + 1;
    }

    /** `save` of an entity that already carries its id: the row is overwritten. */
    method Update(id: nat, p: Post)
      requires Valid() && id < nextId
      modifies this`rows
      ensures Valid()
      ensures rows == old(rows)[id := p]
    {
      rows := rows[id := p];
    }
  }

  /** The keywords table. */
  class KeywordRepository {
    var rows: map<nat, Keyword>

    /** Every row is filed under its own id. */
    predicate Valid()
      reads this
    {
      forall id :: id in rows ==> rows[id].id == id
    }

    constructor ()
      ensures Valid() && rows == map[]
    {
      rows := map[];
    }

    /** `findOne({ where: { id } })`. */
    method FindOne(id: nat) returns (k: Option<Keyword>)
      requires Valid()
      ensures k.Some? <==> id in rows
      ensures k.Some? ==> k.value == rows[id] && k.value.id == id
    {
      k := if id in rows then Some(rows[id]) else None;
    }

    /** `save(keyword)`: the row with the keyword's id is written. */
    method Save(k: Keyword)
      requires Valid()
      modifies this
      ensures Valid()
      ensures rows == old(rows)[k.id := k]
    {
      rows := rows[k.id := k];
    }

    /** `delete(id)`. */
    method Delete(id: nat)
      requires Valid()
      modifies this
      ensures Valid()
      ensures rows == old(rows) - {id}
    {
      rows := rows - {id};
    }
  }
}
