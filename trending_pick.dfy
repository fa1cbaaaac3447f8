/** `pick_trending`: chooses the next trending repository to post, probing
    sixteen positions of the list from an offset given by the hour of day. */
module TrendingPick {

  import opened Options
  import opened Text

  /** One item of the trending feed; `""` stands for a missing field. */
  datatype Candidate = Candidate(author: string, name: string, url: string, href: string, avatar: string)

  /** What `pick_trending` returns: display name, link and avatar URL. */
  datatype Pick = Pick(name: string, link: string, photo: string)

  /** Number of positions probed. */
  const Window: nat := 16

  /** `x.get("url") or x.get("href", "")`. */
  function LinkOf(c: Candidate): string {
    if c.url != "" then c.url else c.href
  }

  /** `f"{author}/{name}".strip("/")`. */
  function DisplayName(c: Candidate): (n: string)
    ensures n == [] || (n[0] != '/' && n[|n| - 1] != '/')
  {
    Strip(c.author + "/" + c.name, {'/'})
  }

  /** What is returned for candidate `c` once it is chosen. */
  function PickOf(c: Candidate): Pick {
    Pick(DisplayName(c), LinkOf(c), c.avatar)
  }

  /** A candidate with a link that has not been posted yet. */
  predicate Eligible(c: Candidate, seen: seq<string>) {
    LinkOf(c) != "" && LinkOf(c) !in seen
  }

  /** The start offset for `hour` (0..23): `hour - 1` up to 16, else `hour - 17`. */
  function Offset(hour: nat): (h: int)
    requires hour < 24
    ensures -1 <= h <= 15
  {
    if hour <= 16 then hour - 1 else hour - 17
  }

  /** The index of the `i`-th probe, `(h + i) % count`; Dafny's `%` agrees
      with Python's for a positive divisor, so offset -1 wraps to the end. */
  function ProbeIndex(count: nat, hour: nat, i: nat): (k: nat)
    requires count > 0 && hour < 24
    ensures k < count
  {
    (Offset(hour) + i) % count
  }

  /** The candidate looked at by the `i`-th probe. */
  function Probe(data: seq<Candidate>, hour: nat, i: nat): Candidate
    requires |data| > 0 && hour < 24
  {
    data[ProbeIndex(|data|, hour, i)]
  }

  /** The candidate chosen by probes `i`, `i + 1`, ..., `Window - 1`. */
  function SelectFrom(data: seq<Candidate>, seen: seq<string>, hour: nat, i: nat): Option<Pick>
    requires |data| > 0 && hour < 24
    decreases Window - i
  {
    if i >= Window then None
    else
      var x := Probe(data, hour, i);
      if Eligible(x, seen) then Some(PickOf(x)) else SelectFrom(data, seen, hour, i + 1)
  }

  /** What `pick_trending(data, seen)` returns at `hour`. */
  function Selection(data: seq<Candidate>, seen: seq<string>, hour: nat): Option<Pick>
    requires hour < 24
  {
    if data == [] then None else SelectFrom(data, seen, hour, 0)
  }

  /** No probe from `i` up to the window's end finds an eligible candidate. */
  ghost predicate NoneEligibleFrom(data: seq<Candidate>, seen: seq<string>, hour: nat, i: nat)
    requires |data| > 0 && hour < 24
  {
    forall j :: i <= j < Window ==> !Eligible(Probe(data, hour, j), seen)
  }

  /** Probe `j` is the first eligible one from probe `i` on. */
  ghost predicate FirstEligibleAt(data: seq<Candidate>, seen: seq<string>, hour: nat, i: nat, j: nat)
    requires |data| > 0 && hour < 24
  {
    i <= j < Window && Eligible(Probe(data, hour, j), seen)
    && forall j' :: i <= j' < j ==> !Eligible(Probe(data, hour, j'), seen)
  }

  /** The selection is the first eligible candidate in probe order, and is
      absent only when no probe finds one. */
  lemma {:induction false} SelectFromIsFirstEligible(data: seq<Candidate>, seen: seq<string>, hour: nat, i: nat)
    requires |data| > 0 && hour < 24 && i <= Window
    ensures SelectFrom(data, seen, hour, i).None? <==> NoneEligibleFrom(data, seen, hour, i)
    ensures SelectFrom(data, seen, hour, i).Some? ==>
              exists j :: FirstEligibleAt(data, seen, hour, i, j)
                          && SelectFrom(data, seen, hour, i).value == PickOf(Probe(data, hour, j))
    decreases Window - i
  {
    if i < Window && !Eligible(Probe(data, hour, i), seen) {
      SelectFromIsFirstEligible(data, seen, hour, i + 1);
      if SelectFrom(data, seen, hour, i).Some? {
        var j :| FirstEligibleAt(data, seen, hour, i + 1, j)
                 && SelectFrom(data, seen, hour, i + 1).value == PickOf(Probe(data, hour, j));
        assert FirstEligibleAt(data, seen, hour, i, j);
      }
    } else if i < Window {
      assert FirstEligibleAt(data, seen, hour, i, i);
    }
  }

  /** Whatever is selected has a non-empty link that has not been posted,
      and its name is `author/name` without surrounding slashes. */
  lemma SelectionIsUnseen(data: seq<Candidate>, seen: seq<string>, hour: nat)
    requires hour < 24
    ensures data == [] ==> Selection(data, seen, hour).None?
    ensures match Selection(data, seen, hour)
            case None => true
            case Some(p) => p.link != "" && p.link !in seen
                            && exists c :: c in data && p == PickOf(c)
  {
    if data != [] {
      SelectFromIsFirstEligible(data, seen, hour, 0);
    }
  }

  /** `pick_trending(data, seen)` with the hour of `datetime.now()` passed in. */
  method PickTrending(data: seq<Candidate>, seen: seq<string>, hour: nat) returns (r: Option<Pick>)
    requires hour < 24
    ensures r == Selection(data, seen, hour)
    ensures r.Some? ==> r.value.link != "" && r.value.link !in seen
  {
    if data == [] {
      return None;
    }
    var h := Offset(hour);
    var count := |data|;
    for i := 0 to Window
      invariant SelectFrom(data, seen, hour, 0) == SelectFrom(data, seen, hour, i)
    {
      var x := data[(h + i) % count];
      assert x == Probe(data, hour, i);
      var n := Strip(x.author + "/" + x.name, {'/'});
      var l := if x.url != "" then x.url else x.href;
      var p := x.avatar;
      if l != "" && l !in seen {
        return Some(Pick(n, l, p));
      }
    }
    return None;
  }
}
