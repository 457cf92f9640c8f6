/** DataTrackPublisher: the publication of one topic on one LiveKit data track. */
module DataTracks {
  import opened Wrappers

  /** What happens on the data track: a successful publish, and an attempt to unpublish. */
  datatype Event = PublishTrack | UnpublishTrack

  /** The room may refuse the track; the ROS subscription may fail once the track is there. */
  datatype PublishOutcome = TrackRefused | SubscribeFails | Works

  /** publication: the interval that the live publication applies, if there is one. */
  datatype Publisher = Publisher(interval: int, publication: Option<int>)

  const NEW_PUBLISHER := Publisher(0, None)

  function WithInterval(p: Publisher, ms: int): Publisher {
    Publisher(ms, if p.publication.Some? then Some(ms) else None)
  }

  function AfterPublish(p: Publisher, outcome: PublishOutcome): Publisher {
    if p.publication.None? && outcome.Works? then p.(publication := Some(p.interval)) else p
  }

  function PublishEvents(p: Publisher, outcome: PublishOutcome): seq<Event> {
    if p.publication.Some? then []
    else match outcome
      case TrackRefused => []
      case SubscribeFails => [PublishTrack, UnpublishTrack]
      case Works => [PublishTrack]
  }

  function DestroyEvents(p: Publisher): seq<Event> {
    if p.publication.Some? then [UnpublishTrack] else []
  }

  /** The track is published and unpublished in turn, starting with a publish; `live` says that the last
      publish has not been answered by an unpublish attempt. */
  predicate Alternates(trace: seq<Event>, live: bool) {
    && (forall i :: 0 <= i < |trace| ==> trace[i] == if i % 2 == 0 then PublishTrack else UnpublishTrack)
    && (live <==> |trace| % 2 == 1)
  }

  lemma PublishingAlternates(trace: seq<Event>, p: Publisher, outcome: PublishOutcome)
    requires Alternates(trace, p.publication.Some?)
    ensures Alternates(trace + PublishEvents(p, outcome), AfterPublish(p, outcome).publication.Some?)
  {
  }

  lemma DestroyingAlternates(trace: seq<Event>, p: Publisher)
    requires Alternates(trace, p.publication.Some?)
    ensures Alternates(trace + DestroyEvents(p), false)
  {
  }

  /** A publish attempt makes a track live exactly if it was or everything works; the room sees a publish
      unless the track was live or is refused, and an unpublish after it if the ROS subscription fails. */
  lemma PublishingIsExact(p: Publisher, outcome: PublishOutcome)
    ensures AfterPublish(p, outcome).interval == p.interval
    ensures AfterPublish(p, outcome).publication
            == if p.publication.None? && outcome == Works then Some(p.interval) else p.publication
    ensures PublishEvents(p, outcome) == [] <==> p.publication.Some? || outcome == TrackRefused
    ensures PublishEvents(p, outcome) == [PublishTrack] <==> p.publication.None? && outcome == Works
    ensures PublishEvents(p, outcome) == [PublishTrack, UnpublishTrack]
            <==> p.publication.None? && outcome == SubscribeFails
  {
  }

  class DataTrackPublisher {
    var intervalMs: int
    var publication: Option<int>
    ghost var trace: seq<Event>

    function Abs(): Publisher
      reads this
    {
      Publisher(intervalMs, publication)
    }

    /** A live publication applies the current interval, and the track alternates. */
    ghost predicate Valid()
      reads this
    {
      && (publication.Some? ==> publication.value == intervalMs)
      && Alternates(trace, publication.Some?)
    }

    constructor ()
      ensures Valid() && Abs() == NEW_PUBLISHER && trace == []
    {
      intervalMs, publication, trace := 0, None, [];
    }

    /** A publication whose constructor fails after the track is there unpublishes it again; the failure
        is swallowed and a later call retries. */
    method Publish(outcome: PublishOutcome)
      requires Valid()
      modifies this`publication, this`trace
      ensures Valid()
      ensures Abs() == AfterPublish(old(Abs()), outcome)
      ensures trace == old(trace) + PublishEvents(old(Abs()), outcome)
      ensures intervalMs == old(intervalMs)
      ensures old(publication).Some? || outcome == TrackRefused ==>
                publication == old(publication) && trace == old(trace)
      ensures old(publication).None? && outcome == SubscribeFails ==>
                publication == None && trace == old(trace) + [PublishTrack, UnpublishTrack]
      ensures old(publication).None? && outcome == Works ==>
                publication == Some(intervalMs) && trace == old(trace) + [PublishTrack]
    {
      PublishingAlternates(trace, Abs(), outcome);
      if publication.Some? {
        assert trace + [] == trace;
        return;
      }
      match outcome
      case TrackRefused =>
        assert trace + [] == trace;
      case SubscribeFails =>
        trace := trace + [PublishTrack, UnpublishTrack];
      case Works =>
        publication := Some(intervalMs);
        trace := trace + [PublishTrack];
    }

    method SetIntervalMs(ms: int)
      requires Valid()
      modifies this`intervalMs, this`publication
      ensures Valid()
      ensures Abs() == WithInterval(old(Abs()), ms)
      ensures intervalMs == ms && publication == if old(publication).Some? then Some(ms) else None
    {
      intervalMs := ms;
      if publication.None? {
        return;
      }
      publication := Some(ms);
    }

    /** The destructor: a publication stops its callbacks and tries to unpublish its track. */
    method Destroy()
      requires Valid()
      modifies this`publication, this`trace
      ensures Valid() && publication == None
      ensures trace == old(trace) + DestroyEvents(old(Abs()))
      ensures trace == if old(publication).Some? then old(trace) + [UnpublishTrack] else old(trace)
    {
      if publication.Some? {
        publication := None;
        trace := trace + [UnpublishTrack];
      }
    }
  }
}
