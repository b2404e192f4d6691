/** `RequestWrapper` and its `request_data` loop, with the caller's parameter
    dictionary as an object the loop updates in place. */
module Collector {
  import opened Transport
  import opened Pagination
  import opened Output

  /** A query-parameter value. */
  datatype Param = Num(n: int) | Text(s: string)

  /** One GET as the server receives it: full address and query parameters. */
  datatype Request = Request(url: string, query: map<string, Param>)

  const OffsetKey: string := "offset"
  const DefaultBaseUrl: string := "https://banks.data.fdic.gov/api"

  /** Setting `offset` leaves every other key and its value as it was. */
  lemma OffsetOnly(caller: map<string, Param>, offset: nat)
    ensures var after := caller[OffsetKey := Num(offset)];
      forall key :: key != OffsetKey ==>
        (key in after <==> key in caller) && (key in after ==> after[key] == caller[key])
  {
  }

  /** The requests a run makes: one per offset sent, in order, each to `url`
      with the caller's parameters and `offset` set to that offset. */
  function Requests(url: string, caller: map<string, Param>, offsets: seq<nat>): seq<Request>
  {
    if offsets == [] then []
    else
      var last := offsets[|offsets| - 1];
      Requests(url, caller, offsets[..|offsets| - 1]) + [Request(url, caller[OffsetKey := Num(last)])]
  }

  /** The caller's dictionary after the offsets in `offsets` were sent. */
  function Current(caller: map<string, Param>, offsets: seq<nat>): map<string, Param>
  {
    if offsets == [] then caller else caller[OffsetKey := Num(offsets[|offsets| - 1])]
  }

  /** Sending one more offset: `dict.update` with the new offset over the
      current dictionary. */
  lemma CurrentSnoc(caller: map<string, Param>, offsets: seq<nat>, offset: nat)
    ensures Current(caller, offsets) + map[OffsetKey := Num(offset)] == Current(caller, offsets + [offset])
  {
    var left, right := Current(caller, offsets) + map[OffsetKey := Num(offset)], Current(caller, offsets + [offset]);
    assert left.Keys == right.Keys;
  }

  lemma RequestsSnoc(url: string, caller: map<string, Param>, offsets: seq<nat>, offset: nat)
    ensures Requests(url, caller, offsets + [offset]) ==
      Requests(url, caller, offsets) + [Request(url, caller[OffsetKey := Num(offset)])]
  {
    assert (offsets + [offset])[..|offsets|] == offsets;
  }

  lemma {:induction false} RequestsAt(url: string, caller: map<string, Param>, offsets: seq<nat>)
    ensures |Requests(url, caller, offsets)| == |offsets|
    ensures forall i :: 0 <= i < |offsets| ==>
      Requests(url, caller, offsets)[i] == Request(url, caller[OffsetKey := Num(offsets[i])])
  {
    if offsets != [] {
      RequestsAt(url, caller, offsets[..|offsets| - 1]);
    }
  }

  /** The caller-owned parameter dictionary. */
  class Params {
    var entries: map<string, Param>

    constructor (entries: map<string, Param>)
      ensures this.entries == entries
    {
      this.entries := entries;
    }

    /** `dict.update`: keys of `other` are set to its values, the rest kept. */
    method Update(other: map<string, Param>)
      modifies this
      ensures entries == old(entries) + other
    {
      entries := entries + other;
    }
  }

  class RequestWrapper {
    const baseUrl: string

    constructor (baseUrl: string := DefaultBaseUrl)
      ensures this.baseUrl == baseUrl
    {
      this.baseUrl := baseUrl;
    }

    /** The request loop: request k goes to baseUrl + endpoint with the
        caller's parameters and `offset` set to the k-th offset of the run, and
        is answered by `script[k]`; the accumulator and the last answer are
        those of the run, and the caller's dictionary keeps `offset` at the
        value last sent. */
    method Fetch(endpoint: string, params: Params, script: seq<Response>)
      returns (data: seq<Record>, response: Option<Page>, sent: seq<Request>)
      requires Collect(script).stop != Exhausted
      modifies params
      ensures var run := Collect(script);
        data == run.data && response == run.last && |run.offsets| >= 1 &&
        sent == Requests(baseUrl + endpoint, old(params.entries), run.offsets) &&
        params.entries == Current(old(params.entries), run.offsets)
    {
      ghost var run := Collect(script);
      ghost var caller := params.entries;
      ghost var offsets: seq<nat> := [];
      var rest := script;
      data := [];
      var offset: nat := 0;
      response := None;
      var url := baseUrl + endpoint;
      sent := [];
      while true
        invariant run == Resumed(offsets, Paginate(rest, data, offset))
        invariant sent == Requests(url, caller, offsets)
        invariant params.entries == Current(caller, offsets)
        invariant |offsets| <= |script| && rest == script[|offsets|..]
        invariant data == Records(script[..|offsets|]) && offset == |data|
        decreases |rest|
      {
        Ending(rest, data, offset, offsets, run);
        ghost var before, data0, offset0 := offsets, data, offset;
        CurrentSnoc(caller, offsets, offset);
        RequestsSnoc(url, caller, offsets, offset);
        params.Update(map[OffsetKey := Num(offset)]);
        sent := sent + [Request(url, params.entries)];
        offsets := offsets + [offset];
        response := MakeRequest(rest[0]);
        if response.None? {
          break;
        }
        data := data + response.value.records;
        if |data| >= response.value.total {
          break;
        }
        offset := offset + |response.value.records|;
        Continuing(rest, data0, offset0, before, run, data, offset);
        RecordsSnoc(script, |before|);
        rest := rest[1..];
      }
    }

    /** `request_data`: the request loop, then the output for `format`. The
        caller's dictionary ends with every key other than `offset` as it was. */
    method RequestData(endpoint: string, params: Params, script: seq<Response>,
                       format: string := "json", outputName: string := "output")
      returns (outcome: Outcome, sent: seq<Request>)
      requires Collect(script).stop != Exhausted
      modifies params
      ensures var run := Collect(script);
        |run.offsets| >= 1 && |sent| == |run.offsets| &&
        (forall i :: 0 <= i < |sent| ==>
          sent[i] == Request(baseUrl + endpoint, old(params.entries)[OffsetKey := Num(run.offsets[i])])) &&
        params.entries == old(params.entries)[OffsetKey := Num(run.offsets[|run.offsets| - 1])] &&
        outcome == WriteOutput(run.data, run.last, format, outputName)
      ensures forall key :: key != OffsetKey ==>
        (key in params.entries <==> key in old(params.entries)) &&
        (key in params.entries ==> params.entries[key] == old(params.entries)[key])
    {
      ghost var run := Collect(script);
      OffsetOnly(params.entries, run.offsets[|run.offsets| - 1]);
      RequestsAt(baseUrl + endpoint, params.entries, run.offsets);
      var data, response;
      data, response, sent := Fetch(endpoint, params, script);
      outcome := WriteOutput(data, response, format, outputName);
    }
  }
}
