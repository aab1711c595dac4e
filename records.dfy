/**
 The stored shape of a log entry: a flat dictionary with a `type`, an `id`
 and, for add and edit, a `content` key. The reducer's `match` sorts each
 dictionary into one of its arms by which keys are present and what `type` is;
 `Decode` is that sorting, and `Encode` is the dictionary each route handler
 appends.
 */
module Records {
  import opened Wrappers
  import opened Reducer

  /** The keys of a stored action that the reducer looks at; a missing key is `None`.
      Keys other than these are ignored by every arm. */
  datatype Record = Record(kind: Option<string>, id: Option<string>, content: Option<string>)

  /** The `type` tag each arm matches. */
  function Tag(e: Event): string
    requires !e.Other?
  {
    match e
    case Add(_, _) => "add"
    case Delete(_) => "delete"
    case Edit(_, _) => "edit"
    case Check(_) => "check"
    case Uncheck(_) => "uncheck"
  }

  /** The arm of the reducer's match a stored action falls into. */
  function Decode(rec: Record): (e: Event)
    // a recognised action keeps its tag and its id ...
    ensures !e.Other? ==> rec.kind == Some(Tag(e)) && rec.id == Some(e.id)
    // ... and add and edit keep their content
    ensures (e.Add? || e.Edit?) ==> rec.content == Some(e.content)
    // an action without an id, or with an unknown type, is ignored
    ensures rec.id.None? ==> e.Other?
    ensures rec.kind.None? ==> e.Other?
    ensures rec.kind.Some? && rec.kind.value !in {"add", "delete", "edit", "check", "uncheck"} ==> e.Other?
    // an add or edit without content is ignored too
    ensures rec.kind in {Some("add"), Some("edit")} && rec.content.None? ==> e.Other?
    // and every other shape is recognised: a delete, check or uncheck with an id
    // (whatever else it carries), an add or edit with an id and content
    ensures rec.id.Some? && rec.kind in {Some("delete"), Some("check"), Some("uncheck")} ==> !e.Other?
    ensures rec.id.Some? && rec.content.Some? && rec.kind in {Some("add"), Some("edit")} ==> !e.Other?
  {
    match rec
    case Record(Some("add"), Some(id), Some(content)) => Add(id, content)
    case Record(Some("delete"), Some(id), _) => Delete(id)
    case Record(Some("edit"), Some(id), Some(content)) => Edit(id, content)
    case Record(Some("check"), Some(id), _) => Check(id)
    case Record(Some("uncheck"), Some(id), _) => Uncheck(id)
    case _ => Other
  }

  /** The dictionary a route handler appends for an event: add and edit carry
      content, the other three only a type and an id. */
  function Encode(e: Event): (rec: Record)
    requires !e.Other?
    ensures rec.kind == Some(Tag(e)) && rec.id == Some(e.id)
    ensures rec.content.Some? <==> (e.Add? || e.Edit?)
  {
    match e
    case Add(id, content) => Record(Some("add"), Some(id), Some(content))
    case Delete(id) => Record(Some("delete"), Some(id), None)
    case Edit(id, content) => Record(Some("edit"), Some(id), Some(content))
    case Check(id) => Record(Some("check"), Some(id), None)
    case Uncheck(id) => Record(Some("uncheck"), Some(id), None)
  }

  /** Every dictionary a handler writes is read back by the reducer as the same event. */
  lemma DecodeEncode(e: Event)
    requires !e.Other?
    ensures Decode(Encode(e)) == e
  {
  }
}
