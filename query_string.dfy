/**
 * The query string as both the results page and the results endpoint see it:
 * `URLSearchParams`, with each key holding one value (a repeated key is not
 * modelled).
 */
module QueryString {

  import opened Optional

  /** `searchParams.get(key)` is a non-empty string, i.e. truthy in JavaScript. */
  predicate Present(params: map<string, string>, key: string)
  {
    key in params && params[key] != ""
  }

  /** `searchParams.get(key) || fallback`. */
  function GetOr(params: map<string, string>, key: string, fallback: string): string
  {
    if Present(params, key) then params[key] else fallback
  }

  /** A `URLSearchParams` object that handlers copy and then change step by step. */
  class UrlParams {
    var entries: map<string, string>

    /** `new URLSearchParams()`. */
    constructor Empty()
      ensures entries == map[]
    {
      entries := map[];
    }

    /** `new URLSearchParams(searchParams.toString())`: a copy of the current query. */
    constructor Copy(current: map<string, string>)
      ensures entries == current
    {
      entries := current;
    }

    /** `params.set(key, value)`. */
    method Set(key: string, value: string)
      modifies this
      ensures entries == old(entries)[key := value]
    {
      entries := entries[key := value];
    }

    /** `params.delete(key)`. */
    method Delete(key: string)
      modifies this
      ensures entries == old(entries) - {key}
    {
      entries := entries - {key};
    }
  }
}
