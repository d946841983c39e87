/** HTTP values abstracted to plain data. Header names are the lower-case
    canonical form the `http` crate stores (`HeaderName` normalises on parse,
    so a name never holds an upper-case ASCII letter); header values are kept
    as their text. */
module Http {
  import opened Results

  type Bytes = seq<bv8>

  /** `http::StatusCode` accepts exactly the codes 100 to 999. */
  type StatusCode = s: int | 100 <= s <= 999 witness 200

  /** An HTTP method, passed through opaquely (GET, POST, or an extension). */
  type Verb = string

  predicate NormalizedName(name: string)
  {
    forall i :: 0 <= i < |name| ==> !('A' <= name[i] <= 'Z')
  }

  /** A `HeaderName`: always in lower-case normal form. */
  type HeaderName = name: string | NormalizedName(name) witness ""

  function LowerChar(c: char): char
  {
    if 'A' <= c <= 'Z' then (c as int + 32) as char else c
  }

  /** ASCII lower-casing, the normalisation `HeaderName` applies. */
  function Lower(s: string): string
  {
    seq(|s|, i requires 0 <= i < |s| => LowerChar(s[i]))
  }

  datatype Header = Header(name: HeaderName, value: string)

  /** A `HeaderMap` written only with `insert`: one value per name. */
  type HeaderMap = map<string, string>

  /** The part of `serde_json::Value` the error responses build. */
  datatype JsonValue =
    | JString(text: string)
    | JNumber(number: int)
    | JObject(members: seq<(string, JsonValue)>)

  /** The names of an object's members. */
  function MemberNames(members: seq<(string, JsonValue)>): set<string>
  {
    set i | 0 <= i < |members| :: members[i].0
  }

  /** The value of the first member called `name`, if any. */
  function Field(members: seq<(string, JsonValue)>, name: string): (r: Option<JsonValue>)
    ensures r.Some? <==> name in MemberNames(members)
    ensures r.Some? ==> exists i :: 0 <= i < |members| && members[i] == (name, r.value)
  {
    if members == [] then None
    else if members[0].0 == name then Some(members[0].1)
    else
      var rest := Field(members[1..], name);
      assert MemberNames(members) == {members[0].0} + MemberNames(members[1..]) by {
        assert forall i :: 0 < i < |members| ==> members[1..][i - 1] == members[i];
      }
      assert rest.Some? ==> exists i :: 0 <= i < |members| && members[i] == (name, rest.value) by {
        if rest.Some? {
          var j :| 0 <= j < |members[1..]| && members[1..][j] == (name, rest.value);
          assert members[j + 1] == (name, rest.value);
        }
      }
      rest
  }

  /** A response body: the upstream's bytes streamed through, or a JSON document. */
  datatype Body = Streamed(bytes: Bytes) | Json(document: JsonValue)

  datatype Response = Response(status: StatusCode, headers: HeaderMap, body: Body)
}
