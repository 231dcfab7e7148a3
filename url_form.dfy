/**
 * frontend/src/components/URLForm.jsx: the list of URL entries the user
 * fills in (at most five), and the results of the shortening requests.
 * The component's two pieces of state, `urls` and `results`, are the
 * fields of class Form; each handler is a method on it.
 */
module UrlForm {

  /** The number of entries "Add URL" stops at. */
  const MaxEntries: nat := 5

  /** The `name` of each text field of an entry row. */
  datatype Field = Url | Validity | Shortcode

  /** One row of the form: the long URL, the validity in minutes and the optional custom shortcode, as typed. */
  datatype Entry = Entry(url: string, validity: string, shortcode: string)

  /** The entry every new row starts as. */
  const Blank: Entry := Entry("", "", "")

  /** The body of a `POST /shorturls` response, as the form keeps it in `results`. */
  datatype Response = Response(shortLink: string, expiry: string)

  /** What one iteration of the submit loop sees: the post failed, or it returned `data` and the log call that follows either returned or threw. */
  datatype PostStep = Rejected | Created(data: Response, logged: bool)

  function Get(e: Entry, f: Field): string {
    match f
    case Url => e.url
    case Validity => e.validity
    case Shortcode => e.shortcode
  }

  /** `entry[name] = value`: field `f` now holds `value`, and every other field is as before. */
  function SetField(e: Entry, f: Field, value: string): (r: Entry)
    ensures Get(r, f) == value
    ensures forall g :: g != f ==> Get(r, g) == Get(e, g)
  {
    match f
    case Url => e.(url := value)
    case Validity => e.(validity := value)
    case Shortcode => e.(shortcode := value)
  }

  /** The list `addUrl` sets: one blank entry more while there are fewer than five, otherwise the same list. */
  function AppendBlank(urls: seq<Entry>): (r: seq<Entry>)
    ensures |r| == if |urls| < MaxEntries then |urls| + 1 else |urls|
    ensures r[..|urls|] == urls
    ensures |r| > |urls| ==> r[|urls|] == Blank
    ensures |urls| <= MaxEntries ==> |r| <= MaxEntries
  {
    if |urls| < MaxEntries then urls + [Blank] else urls
  }

  /** The list `deleteUrl(index)` sets: `urls.filter((_, i) => i !== index)`. */
  function Without(urls: seq<Entry>, index: int): (r: seq<Entry>)
    ensures 0 <= index < |urls| ==> r == urls[..index] + urls[index + 1..]
    ensures !(0 <= index < |urls|) ==> r == urls
  {
    if urls == [] then []
    else (if index == 0 then [] else [urls[0]]) + Without(urls[1..], index - 1)
  }

  /** An iteration of the submit loop that goes on to the next entry: the post returned and the log call did not throw. */
  predicate Completes(s: PostStep) {
    s.Created? && s.logged
  }

  /** The number of iterations that complete before the first one that throws (all of them when none does). */
  function CompletedPrefix(steps: seq<PostStep>): (k: nat)
    ensures k <= |steps|
    ensures forall j :: 0 <= j < k ==> Completes(steps[j])
    ensures k < |steps| ==> !Completes(steps[k])
  {
    if steps == [] || !Completes(steps[0]) then 0
    else 1 + CompletedPrefix(steps[1..])
  }

  /** The response bodies of posts that all returned, in order. */
  function Responses(steps: seq<PostStep>): (r: seq<Response>)
    requires forall j :: 0 <= j < |steps| ==> steps[j].Created?
    ensures |r| == |steps|
    ensures forall j :: 0 <= j < |steps| ==> r[j] == steps[j].data
  {
    if steps == [] then [] else Responses(steps[..|steps| - 1]) + [steps[|steps| - 1].data]
  }

  class Form {
    /** The entry rows on screen. */
    var urls: seq<Entry>
    /** The responses kept so far (mirrored to local storage). */
    var results: seq<Response>

    /** Adding rows never takes the form past five entries. */
    predicate Valid()
      reads this
    {
      |urls| <= MaxEntries
    }

    /** The component's first render: one blank entry, and the results read back from storage. */
    constructor (stored: seq<Response>)
      ensures Valid()
      ensures urls == [Blank] && results == stored
    {
      urls := [Blank];
      results := stored;
    }

    /**
     * `handleChange(index, e)` with `e.target.name == name` and
     * `e.target.value == value`. An index outside the list makes
     * `updated[index]` undefined, the assignment throws, and `setUrls`
     * is never reached.
     */
    method HandleChange(index: int, name: Field, value: string)
      requires Valid()
      modifies this
      ensures Valid()
      ensures |urls| == |old(urls)| && results == old(results)
      ensures 0 <= index < |urls| ==> urls == old(urls)[index := SetField(old(urls)[index], name, value)]
      ensures !(0 <= index < |urls|) ==> urls == old(urls)
    {
      if 0 <= index < |urls| {
        var updated := urls;
        updated := updated[index := SetField(updated[index], name, value)];
        urls := updated;
      }
    }

    /** `addUrl()`. */
    method AddUrl()
      requires Valid()
      modifies this
      ensures Valid()
      ensures urls == AppendBlank(old(urls)) && results == old(results)
    {
      urls := AppendBlank(urls);
    }

    /** `deleteUrl(index)`. */
    method DeleteUrl(index: int)
      requires Valid()
      modifies this
      ensures Valid()
      ensures urls == Without(old(urls), index) && results == old(results)
    {
      urls := Without(urls, index);
    }

    /**
     * `handleSubmit()`, where `steps[i]` is what posting entry `i` and
     * logging its creation came to. Returns the entries that were posted.
     * When every iteration completes, the responses are appended to the
     * results in entry order and the form goes back to one blank entry;
     * when one throws, no later entry is posted and neither list changes.
     */
    method HandleSubmit(steps: seq<PostStep>) returns (sent: seq<Entry>)
      requires Valid()
      requires |steps| == |urls|
      modifies this
      ensures Valid()
      ensures CompletedPrefix(steps) == |steps| ==>
                sent == old(urls) && results == old(results) + Responses(steps) && urls == [Blank]
      ensures CompletedPrefix(steps) < |steps| ==>
                sent == old(urls)[..CompletedPrefix(steps) + 1] && results == old(results) && urls == old(urls)
    {
      var responseData: seq<Response> := [];
      var i := 0;
      var threw := false;
      sent := [];
      while i < |urls| && !threw
        invariant 0 <= i <= |urls|
        invariant sent == urls[..i]
        invariant !threw ==> i <= CompletedPrefix(steps) && responseData == Responses(steps[..i])
        invariant threw ==> 0 < i && i == CompletedPrefix(steps) + 1
      {
        sent := sent + [urls[i]];
        if steps[i].Rejected? {
          threw := true;
        } else {
          responseData := responseData + [steps[i].data];
          if !steps[i].logged {
            threw := true;
          }
        }
        assert steps[..i + 1][..i] == steps[..i];
        i := i + 1;
      }
      if !threw {
        assert steps[..i] == steps;
        results := results + responseData;
        urls := [Blank];
      }
    }

    /** `clearResults()`: the kept results are dropped. */
    method ClearResults()
      requires Valid()
      modifies this
      ensures Valid()
      ensures results == [] && urls == old(urls)
    {
      results := [];
    }
  }

  /** Adding is capped: however many times "Add URL" is pressed on a form of at most five rows, it never exceeds five. */
  lemma {:induction false} RepeatedAddStaysCapped(urls: seq<Entry>, presses: nat)
    requires |urls| <= MaxEntries
    ensures |AddTimes(urls, presses)| == if |urls| + presses < MaxEntries then |urls| + presses else MaxEntries
    ensures AddTimes(urls, presses)[..|urls|] == urls
  {
    if presses > 0 {
      RepeatedAddStaysCapped(urls, presses - 1);
      var before := AddTimes(urls, presses - 1);
      assert AddTimes(urls, presses) == AppendBlank(before);
      assert AppendBlank(before)[..|before|] == before;
      assert AppendBlank(before)[..|urls|] == before[..|urls|];
    }
  }

  /** The list after pressing "Add URL" `presses` times. */
  function AddTimes(urls: seq<Entry>, presses: nat): seq<Entry> {
    if presses == 0 then urls else AppendBlank(AddTimes(urls, presses - 1))
  }
}
