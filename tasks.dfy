/**
 * The objects the spiders pass around: a Request, or an item. Code that
 * tests `isinstance(obj, Request)` matches on this type.
 */
module Tasks {
  import opened Common
  import Requests

  /** A request, or an item given by its field dict (`item.to_dict()`). */
  datatype Task = RequestTask(r: Requests.Request) | ItemTask(fields: map<Key, Val>)

  /** `obj.to_json()`: Request.to_json, or the JSON text of the item's fields. */
  function TaskJson(t: Task, d: Requests.Defaults): Bytes {
    match t
    case RequestTask(r) => Requests.ToJson(r, d)
    case ItemTask(f) => BJson(f)
  }
}
