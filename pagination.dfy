/** The offset-based pagination loop of `RequestWrapper.request_data` as a
    specification function over a scripted server, and what it guarantees. */
module Pagination {
  import opened Transport

  /** Why the loop ended: a request came back unusable, the accumulator reached
      the reported total, or the scripted server had no further answer. */
  datatype Stop = Failed | Reached | Exhausted

  /** The end state of the loop: the accumulator, the offset sent with each
      request in order, the value of `response` after the loop, and why it stopped. */
  datatype Run = Run(data: seq<Record>, offsets: seq<nat>, last: Option<Page>, stop: Stop)

  /** The records of every answer in `script`, concatenated in order. */
  function Records(script: seq<Response>): seq<Record>
  {
    if script == [] then [] else script[0].body.records + Records(script[1..])
  }

  /** The loop goes on after `response` when it is usable and the accumulator,
      now holding `count` records, is still below the page's total. */
  predicate Continues(response: Response, count: int)
  {
    response.status == 200 && count < response.body.total
  }

  /** The loop from a state with accumulator `data` and counter `offset`;
      request k is answered by `script[k]`. */
  function Paginate(script: seq<Response>, data: seq<Record>, offset: nat): (r: Run)
    ensures data <= r.data
    ensures |r.offsets| <= |script| && (r.stop != Exhausted ==> |r.offsets| >= 1)
    ensures r.last.Some? <==> r.stop == Reached
    decreases |script|
  {
    if script == [] then Run(data, [], None, Exhausted)
    else if !HandleResponseErrors(script[0]) then Run(data, [offset], None, Failed)
    else
      var page := script[0].body;
      var data' := data + page.records;
      if |data'| >= page.total then Run(data', [offset], Some(page), Reached)
      else Resumed([offset], Paginate(script[1..], data', offset + |page.records|))
  }

  /** `r` seen from a loop that had already sent `sentBefore`. */
  function Resumed(sentBefore: seq<nat>, r: Run): Run
  {
    r.(offsets := sentBefore + r.offsets)
  }

  lemma ResumedTwice(sentBefore: seq<nat>, offset: nat, r: Run)
    ensures Resumed(sentBefore, Resumed([offset], r)) == Resumed(sentBefore + [offset], r)
  {
    assert sentBefore + ([offset] + r.offsets) == (sentBefore + [offset]) + r.offsets;
  }

  /** A whole call: empty accumulator, offset 0. */
  function Collect(script: seq<Response>): Run
  {
    Paginate(script, [], 0)
  }

  /** The request that ends the loop, seen from the whole run: `run` is the
      loop resumed on the answers `rest` after the offsets in `before` were
      sent, with `data` and `offset` as they stand. */
  lemma Ending(rest: seq<Response>, data: seq<Record>, offset: nat, before: seq<nat>, run: Run)
    requires rest != [] && run == Resumed(before, Paginate(rest, data, offset))
    ensures rest[0].status != 200 ==>
      run.offsets == before + [offset] && run.data == data && run.last == None
    ensures rest[0].status == 200 && |data + rest[0].body.records| >= rest[0].body.total ==>
      run.offsets == before + [offset] && run.data == data + rest[0].body.records &&
      run.last == Some(rest[0].body)
  {
  }

  /** A request after which the loop goes on: the run resumes on the remaining
      answers with the grown accumulator `data'` and the advanced `offset'`. */
  lemma Continuing(rest: seq<Response>, data: seq<Record>, offset: nat, before: seq<nat>, run: Run,
                   data': seq<Record>, offset': nat)
    requires rest != [] && run == Resumed(before, Paginate(rest, data, offset))
    requires data' == data + rest[0].body.records && offset' == offset + |rest[0].body.records|
    requires Continues(rest[0], |data'|)
    ensures run == Resumed(before + [offset], Paginate(rest[1..], data', offset'))
  {
    ResumedTwice(before, offset, Paginate(rest[1..], data', offset'));
  }

  lemma RecordsPrefix(script: seq<Response>, i: nat)
    requires 0 <= i < |script|
    ensures Records(script[..i + 1]) == script[0].body.records + Records(script[1..][..i])
  {
    assert script[..i + 1][1..] == script[1..][..i];
  }

  /** Appending one answer appends its records. */
  lemma {:induction false} RecordsSnoc(script: seq<Response>, n: nat)
    requires n < |script|
    ensures Records(script[..n + 1]) == Records(script[..n]) + script[n].body.records
  {
    if n == 0 {
      assert script[..1] == [script[0]] && script[..1][1..] == [] && script[..0] == [];
    } else {
      RecordsPrefix(script, n);
      RecordsPrefix(script, n - 1);
      RecordsSnoc(script[1..], n - 1);
      assert script[1..][n - 1] == script[n];
    }
  }

  /** The offset sent with request i is the number of records in answers
      0..i-1 (a prefix sum, not a multiple of a page size), and no more
      requests are made than the script answers. */
  lemma {:induction false} PaginateOffsets(script: seq<Response>, data: seq<Record>, offset: nat)
    ensures var r := Paginate(script, data, offset);
      |r.offsets| <= |script| &&
      forall i :: 0 <= i < |r.offsets| ==> r.offsets[i] == offset + |Records(script[..i])|
  {
    assert script[..0] == [];
    if script != [] && Continues(script[0], |data + script[0].body.records|) {
      var page := script[0].body;
      var data' := data + page.records;
      var o' := offset + |page.records|;
      PaginateOffsets(script[1..], data', o');
      var r := Paginate(script, data, offset);
      var rest := Paginate(script[1..], data', o');
      assert r.offsets == [offset] + rest.offsets;
      forall i | 1 <= i < |r.offsets|
        ensures r.offsets[i] == offset + |Records(script[..i])|
      {
        assert r.offsets[i] == rest.offsets[i - 1];
        RecordsPrefix(script, i - 1);
      }
    }
  }

  /** Every request but the last was answered by a usable page whose total the
      accumulator had not yet reached. */
  lemma {:induction false} PaginateContinues(script: seq<Response>, data: seq<Record>, offset: nat)
    ensures var r := Paginate(script, data, offset);
      |r.offsets| <= |script| &&
      forall i :: 0 <= i < |r.offsets| - 1 ==>
        Continues(script[i], |data| + |Records(script[..i + 1])|)
  {
    if script != [] && Continues(script[0], |data + script[0].body.records|) {
      var page := script[0].body;
      var data' := data + page.records;
      var o' := offset + |page.records|;
      PaginateContinues(script[1..], data', o');
      var r := Paginate(script, data, offset);
      var rest := Paginate(script[1..], data', o');
      assert r.offsets == [offset] + rest.offsets;
      forall i | 0 <= i < |r.offsets| - 1
        ensures Continues(script[i], |data| + |Records(script[..i + 1])|)
      {
        RecordsPrefix(script, i);
        if i == 0 {
          assert script[1..][..0] == [];
        } else {
          assert Continues(script[1..][i - 1], |data'| + |Records(script[1..][..(i - 1) + 1])|);
        }
      }
    }
  }

  /** Fail-soft end: when the loop stops on an unusable answer, that answer
      is the last one asked for, `response` is None and the accumulator holds
      exactly the records of the answers before it. */
  lemma {:induction false} PaginateFailed(script: seq<Response>, data: seq<Record>, offset: nat)
    requires Paginate(script, data, offset).stop == Failed
    ensures var r := Paginate(script, data, offset); var n := |r.offsets|;
      1 <= n <= |script| && script[n - 1].status != 200 && r.last == None &&
      r.data == data + Records(script[..n - 1])
  {
    assert script[..0] == [];
    if script[0].status == 200 {
      var page := script[0].body;
      var data' := data + page.records;
      var o' := offset + |page.records|;
      PaginateFailed(script[1..], data', o');
      var r := Paginate(script, data, offset);
      var rest := Paginate(script[1..], data', o');
      var n := |r.offsets|;
      assert r.data == rest.data && n == |rest.offsets| + 1;
      RecordsPrefix(script, n - 2);
      assert script[n - 1] == script[1..][n - 2];
      assert r.data == data + (page.records + Records(script[1..][..n - 2]));
    }
  }

  /** Complete end: when the loop stops on reaching the total, the last answer
      was usable, `response` is that page, the accumulator holds the records
      of every answer asked for, and at least that page's total of them. */
  lemma {:induction false} PaginateReached(script: seq<Response>, data: seq<Record>, offset: nat)
    requires Paginate(script, data, offset).stop == Reached
    ensures var r := Paginate(script, data, offset); var n := |r.offsets|;
      1 <= n <= |script| && script[n - 1].status == 200 && r.last == Some(script[n - 1].body) &&
      r.data == data + Records(script[..n]) && |r.data| >= script[n - 1].body.total
  {
    var page := script[0].body;
    var data' := data + page.records;
    if |data'| >= page.total {
      assert script[..1] == [script[0]];
      assert script[..1][1..] == [];
    } else {
      var o' := offset + |page.records|;
      PaginateReached(script[1..], data', o');
      var r := Paginate(script, data, offset);
      var rest := Paginate(script[1..], data', o');
      var n := |r.offsets|;
      assert r.data == rest.data && r.last == rest.last && n == |rest.offsets| + 1;
      RecordsPrefix(script, n - 1);
      assert script[n - 1] == script[1..][n - 2];
      assert r.data == data + (page.records + Records(script[1..][..n - 1]));
    }
  }

  /** When the scripted server runs dry, every answer was asked for and every
      record of the script is in the accumulator. */
  lemma {:induction false} PaginateExhausted(script: seq<Response>, data: seq<Record>, offset: nat)
    requires Paginate(script, data, offset).stop == Exhausted
    ensures var r := Paginate(script, data, offset);
      |r.offsets| == |script| && r.last == None && r.data == data + Records(script)
  {
    if script != [] {
      var page := script[0].body;
      var data' := data + page.records;
      var o' := offset + |page.records|;
      PaginateExhausted(script[1..], data', o');
      assert Paginate(script, data, offset).data == data + (page.records + Records(script[1..]));
    }
  }

  /** Progress: when every usable answer carries at least one record and the
      same total, the loop finishes (by failure or by reaching the total) within
      that many requests, so a server with that many answers never runs dry. */
  lemma {:induction false} PaginateProgress(script: seq<Response>, data: seq<Record>, offset: nat, total: int)
    requires |script| >= 1 && |data| + |script| >= total
    requires forall i :: 0 <= i < |script| && script[i].status == 200 ==>
      |script[i].body.records| >= 1 && script[i].body.total == total
    ensures Paginate(script, data, offset).stop != Exhausted
  {
    match MakeRequest(script[0])
    case None =>
    case Some(page) =>
      var data' := data + page.records;
      if |data'| < page.total {
        assert forall i :: 0 <= i < |script| - 1 ==> script[1..][i] == script[i + 1];
        PaginateProgress(script[1..], data', offset + |page.records|, total);
      }
  }

  /** No progress: a usable answer with no records while the accumulator is
      below its total leaves the offset where it was, so the next request is
      the same; a server that keeps giving that answer is asked again at the
      same offset for as long as it answers, and the loop never ends. */
  lemma {:induction false} PaginateStall(answer: Response, k: nat, data: seq<Record>, offset: nat)
    requires answer.status == 200 && answer.body.records == [] && |data| < answer.body.total
    ensures Paginate(seq(k, _ => answer), data, offset) == Run(data, seq(k, _ => offset), None, Exhausted)
  {
    if k > 0 {
      var script := seq(k, _ => answer);
      assert script[1..] == seq(k - 1, _ => answer);
      assert data + answer.body.records == data;
      PaginateStall(answer, k - 1, data, offset);
      assert [offset] + seq(k - 1, _ => offset) == seq(k, _ => offset);
    }
  }

  /** Completeness: when every answer is a usable, non-empty page reporting
      the same total, and the pages together hold exactly that many records
      beyond those already accumulated, the loop asks for every page, ends by
      reaching the total, and holds every record in page order. */
  lemma {:induction false} PaginateComplete(script: seq<Response>, data: seq<Record>, offset: nat, total: int)
    requires script != [] && |data| + |Records(script)| == total
    requires forall i :: 0 <= i < |script| ==>
      script[i].status == 200 && script[i].body.total == total && |script[i].body.records| >= 1
    ensures var r := Paginate(script, data, offset);
      r.stop == Reached && |r.offsets| == |script| && r.data == data + Records(script) && |r.data| == total
  {
    var page := script[0].body;
    var data' := data + page.records;
    assert Records(script) == page.records + Records(script[1..]);
    if |script| == 1 {
      assert script[1..] == [] && Records(script) == page.records;
      assert Paginate(script, data, offset) == Run(data', [offset], Some(page), Reached);
    } else {
      var o' := offset + |page.records|;
      assert Records(script[1..]) == script[1].body.records + Records(script[2..]);
      assert |data'| < total;
      assert Paginate(script, data, offset) == Resumed([offset], Paginate(script[1..], data', o'));
      assert forall i :: 0 <= i < |script| - 1 ==> script[1..][i] == script[i + 1];
      PaginateComplete(script[1..], data', o', total);
      assert data' + Records(script[1..]) == data + Records(script);
    }
  }
}
