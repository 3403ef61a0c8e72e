/**
 * The part of an outbound `net/http` request that the client and the
 * authenticators touch: its method, URL, headers and query values.  Header
 * keys are taken literally (no canonical capitalisation) and each key holds
 * one value, as `Header.Set` leaves it.
 */
module Http {

  type Header = map<string, string>

  /** `url.Values`: each key holds its values in the order they were added. */
  type Values = map<string, seq<string>>

  const Authorization: string := "Authorization"
  const ContentType: string := "Content-Type"

  /** `Header.Set(key, value)`: the key now holds `value` and nothing else changes. */
  function SetHeader(h: Header, key: string, value: string): (h': Header)
    ensures key in h' && h'[key] == value
    ensures forall k :: k != key ==> (k in h' <==> k in h) && (k in h ==> h'[k] == h[k])
  {
    h[key := value]
  }

  /** Setting a header twice to the same value is setting it once. */
  lemma SetHeaderIdempotent(h: Header, key: string, value: string)
    ensures SetHeader(SetHeader(h, key, value), key, value) == SetHeader(h, key, value)
  {
  }

  /** `url.Values.Add(key, value)`: `value` goes after the key's earlier values. */
  function AddValue(q: Values, key: string, value: string): (q': Values)
    ensures key in q' && q'[key] == (if key in q then q[key] else []) + [value]
    ensures forall k :: k != key ==> (k in q' <==> k in q) && (k in q ==> q'[k] == q[k])
  {
    q[key := (if key in q then q[key] else []) + [value]]
  }

  /** The `Bearer` credential of section 2.1 of RFC 6750. */
  function BearerCredential(token: string): (v: string)
    ensures |v| == |token| + 7 && v[..7] == "Bearer " && v[7..] == token
  {
    "Bearer " + token
  }

  class Request {
    var verb: string
    var url: string
    var header: Header
    /** The query of the URL, as `URL.Query()` reads it. */
    var query: Values

    /** `http.NewRequest`: a request with no headers yet. */
    constructor (verb: string, url: string, query: Values)
      ensures this.verb == verb && this.url == url && this.query == query
      ensures header == map[]
    {
      this.verb := verb;
      this.url := url;
      this.query := query;
      header := map[];
    }
  }
}
