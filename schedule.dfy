/**
 * The scheduling decisions of athan_automation.py: which table row comes
 * next, which audio folder, device, volume and lead-in a prayer gets, the
 * address of the chosen file, and the metadata shown while it plays.
 * The clock, the directory listing and the ID3 reader are inputs.
 */
module Schedule {
  import opened Wrappers
  import opened Text
  import opened Settings

  // ------------------------------------------------------- the next prayer

  /** A row of the prayer-times table, its time in whole seconds. */
  datatype Entry = Entry(name: string, time: int, month: string)

  /** `df[df["Time and Date"] > now]`: the rows after `now`, in table order. */
  function Upcoming(rows: seq<Entry>, now: int): seq<Entry>
    decreases |rows|
  {
    if rows == [] then []
    else (if rows[0].time > now then [rows[0]] else []) + Upcoming(rows[1..], now)
  }

  /**
   * `get_next_prayer_time`: the first upcoming row, or None when no row is
   * upcoming or the table could not be read (`table == None`).
   */
  function NextPrayer(table: Option<seq<Entry>>, now: int): Option<Entry> {
    if table.None? then None
    else
      var upcoming := Upcoming(table.value, now);
      if upcoming == [] then None else Some(upcoming[0])
  }

  /** The first row of `Upcoming` is the first row of the table that lies after `now`. */
  lemma {:induction false} UpcomingHead(rows: seq<Entry>, now: int)
    ensures Upcoming(rows, now) == [] <==> forall i :: 0 <= i < |rows| ==> rows[i].time <= now
    ensures Upcoming(rows, now) != [] ==>
      exists k :: 0 <= k < |rows| && rows[k] == Upcoming(rows, now)[0] && rows[k].time > now
        && forall j :: 0 <= j < k ==> rows[j].time <= now
    decreases |rows|
  {
    if rows != [] {
      UpcomingHead(rows[1..], now);
      if rows[0].time <= now && Upcoming(rows, now) != [] {
        var k :| 0 <= k < |rows[1..]| && rows[1..][k] == Upcoming(rows[1..], now)[0] && rows[1..][k].time > now
          && forall j :: 0 <= j < k ==> rows[1..][j].time <= now;
        assert rows[k + 1] == Upcoming(rows, now)[0];
        forall j | 0 <= j < k + 1 ensures rows[j].time <= now {
          if j > 0 { assert rows[j] == rows[1..][j - 1]; }
        }
      }
      if rows[0].time <= now {
        assert forall i :: 1 <= i < |rows| ==> rows[i] == rows[1..][i - 1];
      }
    }
  }

  /**
   * The returned row lies after `now` and every row before it in the table
   * does not; None means no row lies after `now`.
   */
  lemma NextPrayerIsFirstUpcoming(rows: seq<Entry>, now: int)
    ensures NextPrayer(Some(rows), now).None? <==> forall i :: 0 <= i < |rows| ==> rows[i].time <= now
    ensures NextPrayer(Some(rows), now).Some? ==>
      exists k :: 0 <= k < |rows| && rows[k] == NextPrayer(Some(rows), now).value
        && rows[k].time > now && forall j :: 0 <= j < k ==> rows[j].time <= now
  {
    UpcomingHead(rows, now);
  }

  /** An unreadable table yields no next prayer. */
  lemma NextPrayerUnreadable(now: int)
    ensures NextPrayer(None, now) == None
  {
  }

  predicate SortedByTime(rows: seq<Entry>) {
    forall i, j :: 0 <= i < j < |rows| ==> rows[i].time <= rows[j].time
  }

  /** On a table sorted by time, the first upcoming row is also the earliest upcoming one. */
  lemma NextPrayerEarliestWhenSorted(rows: seq<Entry>, now: int)
    requires SortedByTime(rows)
    ensures NextPrayer(Some(rows), now).Some? ==>
      forall i :: 0 <= i < |rows| && rows[i].time > now ==> NextPrayer(Some(rows), now).value.time <= rows[i].time
  {
    NextPrayerIsFirstUpcoming(rows, now);
  }

  /** Table order, not the earliest time, decides: an out-of-order table yields its first upcoming row. */
  lemma NextPrayerKeepsTableOrder()
    ensures NextPrayer(Some([Entry("Isha", 200, "Rajab"), Entry("Fajr", 100, "Rajab")]), 0)
      == Some(Entry("Isha", 200, "Rajab"))
  {
    var rows := [Entry("Isha", 200, "Rajab"), Entry("Fajr", 100, "Rajab")];
    assert rows[1..][1..] == [];
    assert Upcoming(rows, 0) == [rows[0], rows[1]];
  }

  // ---------------------------------------------- per-prayer choices

  const FAJR := "fajr"
  const MAGHRIB := "maghrib"
  const RAMADAN := "Ramadan"

  /** The three audio folders. */
  datatype Category = FajrAudio | IftarAudio | PrayerAudio

  /** The choice made at the top of `get_random_athan_file`. */
  function CategoryOf(name: string, month: string): (c: Category)
    ensures c == FajrAudio <==> Lower(name) == FAJR
    ensures c == IftarAudio <==> Lower(name) == MAGHRIB && month == RAMADAN
    ensures c == PrayerAudio <==> Lower(name) != FAJR && !(Lower(name) == MAGHRIB && month == RAMADAN)
  {
    var lowered := Lower(name);
    if lowered == FAJR then FajrAudio
    else if lowered == MAGHRIB && month == RAMADAN then IftarAudio
    else PrayerAudio
  }

  /** The folder's name as it appears in the URL. */
  function FolderName(c: Category): string {
    match c
    case FajrAudio => "fajr"
    case IftarAudio => "iftar"
    case PrayerAudio => "prayer"
  }

  /** The local folder that is listed. */
  function FolderPath(cfg: Config, c: Category): string {
    match c
    case FajrAudio => cfg.fajrFolder
    case IftarAudio => cfg.iftarFolder
    case PrayerAudio => cfg.prayerFolder
  }

  /** The device chosen in the main loop. */
  function DeviceFor(cfg: Config, name: string, month: string): string {
    if month == RAMADAN && Lower(name) == MAGHRIB then cfg.iftarDevice else cfg.athanDevice
  }

  /** The volume chosen before playing. */
  function VolumeFor(cfg: Config, name: string): Volume {
    if Lower(name) == FAJR then cfg.fajrVolume else cfg.athanVolume
  }

  const IFTAR_LEAD_IN: nat := 150  // two minutes thirty seconds
  const DEFAULT_LEAD_IN: nat := 3

  /** How long before the prayer time the announcement starts. */
  function LeadIn(name: string, month: string): nat {
    if month == RAMADAN && Lower(name) == MAGHRIB then IFTAR_LEAD_IN else DEFAULT_LEAD_IN
  }

  /**
   * The Ramadan Maghrib test is the same wherever it is made: it picks the
   * iftar folder, the iftar device and the longer lead-in together, and
   * the fajr volume goes with the fajr folder.
   */
  lemma IftarChoicesAgree(cfg: Config, name: string, month: string)
    ensures CategoryOf(name, month) == IftarAudio <==> LeadIn(name, month) == IFTAR_LEAD_IN
    ensures CategoryOf(name, month) == IftarAudio ==> DeviceFor(cfg, name, month) == cfg.iftarDevice
    ensures CategoryOf(name, month) != IftarAudio ==> DeviceFor(cfg, name, month) == cfg.athanDevice
    ensures CategoryOf(name, month) == FajrAudio ==> VolumeFor(cfg, name) == cfg.fajrVolume
    ensures CategoryOf(name, month) != FajrAudio ==> VolumeFor(cfg, name) == cfg.athanVolume
    ensures IFTAR_LEAD_IN > DEFAULT_LEAD_IN
  {
  }

  /** Fajr keeps its own folder, device, volume and lead-in even in Ramadan. */
  lemma FajrInRamadan(cfg: Config, name: string)
    requires Lower(name) == FAJR
    ensures CategoryOf(name, RAMADAN) == FajrAudio
    ensures DeviceFor(cfg, name, RAMADAN) == cfg.athanDevice
    ensures VolumeFor(cfg, name) == cfg.fajrVolume
    ensures LeadIn(name, RAMADAN) == DEFAULT_LEAD_IN
  {
  }

  /** The two table rows the scheduler meets most: "Fajr" in Sha'ban and "Maghrib" in Ramadan. */
  lemma ScenarioDecisions(cfg: Config)
    ensures CategoryOf("Fajr", "Sha'ban") == FajrAudio && DeviceFor(cfg, "Fajr", "Sha'ban") == cfg.athanDevice
    ensures VolumeFor(cfg, "Fajr") == cfg.fajrVolume && LeadIn("Fajr", "Sha'ban") == DEFAULT_LEAD_IN
    ensures CategoryOf("Maghrib", RAMADAN) == IftarAudio && DeviceFor(cfg, "Maghrib", RAMADAN) == cfg.iftarDevice
    ensures VolumeFor(cfg, "Maghrib") == cfg.athanVolume && LeadIn("Maghrib", RAMADAN) == IFTAR_LEAD_IN
  {
    assert Lower("Fajr") == FAJR;
    assert Lower("Maghrib") == MAGHRIB;
  }

  // ------------------------------------------------------------ waiting

  datatype WaitDecision = SleepFor(seconds: nat) | AlreadyPassed

  /** `wait_until_next_prayer`, with the current time `now` as an input. */
  function WaitFor(target: int, name: string, month: string, now: int): (w: WaitDecision)
    ensures w.SleepFor? <==> target - LeadIn(name, month) - now > 0
    ensures w.SleepFor? ==> now + w.seconds + LeadIn(name, month) == target
  {
    var wait := target - LeadIn(name, month) - now;
    if wait > 0 then SleepFor(wait) else AlreadyPassed
  }

  /** Waking happens strictly before the prayer time, 147 s earlier for the Ramadan Maghrib. */
  lemma WaitWakesBeforeTarget(target: int, name: string, month: string, now: int)
    ensures WaitFor(target, name, month, now).SleepFor? ==>
      now + WaitFor(target, name, month, now).seconds < target
    ensures WaitFor(target, "Maghrib", RAMADAN, now).SleepFor? ==>
      WaitFor(target, "Maghrib", "Shawwal", now).SleepFor? &&
      WaitFor(target, "Maghrib", RAMADAN, now).seconds + (IFTAR_LEAD_IN - DEFAULT_LEAD_IN)
        == WaitFor(target, "Maghrib", "Shawwal", now).seconds
  {
    assert Lower("Maghrib") == MAGHRIB;
  }

  // ------------------------------------------------------- the audio file

  /** The address of `file` in category `c`. */
  function AudioUrl(base: string, c: Category, file: string): string {
    base + "/" + FolderName(c) + "/" + file
  }

  /**
   * `get_random_athan_file`: lists the category's folder (`listdir` answers
   * None where `os.listdir` raises) and returns the URL of any listed file;
   * `random.choice` is an arbitrary pick.
   */
  method SelectAudio(cfg: Config, name: string, month: string, listdir: string -> Option<seq<string>>)
    returns (url: Option<string>)
    ensures var listing := listdir(FolderPath(cfg, CategoryOf(name, month)));
      url.None? <==> listing.None? || listing.value == []
    ensures url.Some? ==>
      exists file :: file in listdir(FolderPath(cfg, CategoryOf(name, month))).value
        && url.value == AudioUrl(cfg.baseUrl, CategoryOf(name, month), file)
  {
    var category := CategoryOf(name, month);
    var files := listdir(FolderPath(cfg, category));
    if files.None? || files.value == [] {
      return None;
    }
    assert files.value[0] in files.value;
    var file :| file in files.value;
    url := Some(AudioUrl(cfg.baseUrl, category, file));
  }

  /** Artwork: the iftar picture whenever "iftar" occurs anywhere in the URL. */
  function ThumbnailFor(cfg: Config, url: string): string {
    if Contains(url, "iftar") then cfg.iftarArtUrl else cfg.athanArtUrl
  }

  /** A file from the iftar folder always gets the iftar artwork. */
  lemma IftarAudioGetsIftarArt(cfg: Config, file: string)
    ensures ThumbnailFor(cfg, AudioUrl(cfg.baseUrl, IftarAudio, file)) == cfg.iftarArtUrl
  {
    assert AudioUrl(cfg.baseUrl, IftarAudio, file) == (cfg.baseUrl + "/") + "iftar" + ("/" + file);
    ContainsInfix(cfg.baseUrl + "/", "iftar", "/" + file);
  }

  /** The substring test also fires outside the iftar folder, e.g. for a file whose name mentions iftar. */
  lemma IftarArtBeyondIftarFolder(cfg: Config)
    ensures ThumbnailFor(cfg, AudioUrl(cfg.baseUrl, PrayerAudio, "iftar_dua.mp3")) == cfg.iftarArtUrl
  {
    ContainsInfix(cfg.baseUrl + "/prayer/", "iftar", "_dua.mp3");
    assert AudioUrl(cfg.baseUrl, PrayerAudio, "iftar_dua.mp3") == cfg.baseUrl + "/prayer/" + "iftar" + "_dua.mp3";
  }

  // ------------------------------------------------------------ metadata

  /** Where the ID3 reader looks: the URL with the base URL replaced by the web root. */
  const WEB_ROOT := "/var/www/html/athan"

  function LocalPath(cfg: Config, url: string): string {
    Replace(url, cfg.baseUrl, WEB_ROOT)
  }

  /**
   * The tags of a selected file are read under the fixed web root, in the
   * folder named in its URL, whatever local folders the settings list the
   * files from, as long as the rest of the URL does not repeat the base URL.
   */
  lemma LocalPathOfAudio(cfg: Config, c: Category, file: string)
    requires cfg.baseUrl != []
    requires !Contains("/" + FolderName(c) + "/" + file, cfg.baseUrl)
    ensures LocalPath(cfg, AudioUrl(cfg.baseUrl, c, file)) == WEB_ROOT + "/" + FolderName(c) + "/" + file
  {
    var base, folder := cfg.baseUrl, FolderName(c);
    var tail := "/" + folder + "/" + file;
    calc {
      LocalPath(cfg, AudioUrl(base, c, file));
      { assert AudioUrl(base, c, file) == base + tail; }
      Replace(base + tail, base, WEB_ROOT);
      { ReplaceLeading(base, tail, WEB_ROOT); }
      WEB_ROOT + Replace(tail, base, WEB_ROOT);
      { ReplaceAbsent(tail, base, WEB_ROOT); }
      WEB_ROOT + tail;
    }
  }

  /** The EasyID3 tag lists of a file; None for a tag the file does not have. */
  datatype Tags = Tags(title: Option<seq<string>>, artist: Option<seq<string>>, album: Option<seq<string>>)

  /** `audio.get(key, [default])[0]`; None stands for the IndexError of an empty list. */
  function FirstOr(tag: Option<seq<string>>, default: string): Option<string> {
    match tag
    case None => Some(default)
    case Some(values) => if values == [] then None else Some(values[0])
  }

  /** A tag that is present with no values: indexing its list raises. */
  predicate EmptyTag(tag: Option<seq<string>>) { tag == Some([]) }

  /** The value `get_id3_metadata` reports for a tag that is absent or has values. */
  function TagValue(tag: Option<seq<string>>, default: string): string
    requires !EmptyTag(tag)
  {
    if tag.None? then default else tag.value[0]
  }

  /** Some tag of a readable file is present with no values. */
  predicate HasEmptyTag(t: Tags) { EmptyTag(t.title) || EmptyTag(t.artist) || EmptyTag(t.album) }

  /**
   * `get_id3_metadata`: `read` is None when EasyID3 raises; any failure,
   * including the IndexError of an empty tag list, yields `{}`. Otherwise
   * each tag has its first value or, when absent, its own "Unknown" default.
   */
  function Id3Metadata(read: Option<Tags>): (m: map<string, string>)
    ensures m == map[] <==> read.None? || HasEmptyTag(read.value)
    ensures m != map[] ==> m.Keys == {"title", "artist", "album"}
  {
    if read.None? then map[]
    else
      var title := FirstOr(read.value.title, "Unknown Title");
      var artist := FirstOr(read.value.artist, "Unknown Artist");
      var album := FirstOr(read.value.album, "Unknown Album");
      if title.None? || artist.None? || album.None? then map[]
      else
        var found := map["title" := title.value, "artist" := artist.value, "album" := album.value];
        assert "title" in found;
        found
  }

  /** The values of a non-empty result: each tag's first value, or its own default when absent. */
  lemma Id3MetadataValues(read: Option<Tags>)
    requires read.Some? && !HasEmptyTag(read.value)
    ensures var m := Id3Metadata(read);
      && m.Keys == {"title", "artist", "album"}
      && m["title"] == TagValue(read.value.title, "Unknown Title")
      && m["artist"] == TagValue(read.value.artist, "Unknown Artist")
      && m["album"] == TagValue(read.value.album, "Unknown Album")
  {
  }

  const GENERIC_MEDIA_TYPE := 3

  /** The `media_metadata` dictionary sent with the play command. */
  datatype MediaMetadata = MediaMetadata(metadataType: int, title: string, artist: string, album: string, images: seq<string>)

  function Lookup(m: map<string, string>, key: string, default: string): string {
    if key in m then m[key] else default
  }

  /** The metadata cast for `url`, built from the file's tags (read at `LocalPath`). */
  function CastMetadata(cfg: Config, url: string, read: Option<Tags>): MediaMetadata {
    var m := Id3Metadata(read);
    MediaMetadata(GENERIC_MEDIA_TYPE, Lookup(m, "title", "Athan"), Lookup(m, "artist", "Unknown Reciter"),
                  Lookup(m, "album", "Islamic Prayers"), [ThumbnailFor(cfg, url)])
  }

  /**
   * The two layers of defaults never mix: an unreadable file shows
   * "Athan" / "Unknown Reciter" / "Islamic Prayers"; a readable file shows
   * its first tag values, "Unknown Title" / "Unknown Artist" / "Unknown Album"
   * standing in for missing tags.
   */
  lemma MetadataDefaults(cfg: Config, url: string, read: Option<Tags>)
    ensures read.None? ==>
      CastMetadata(cfg, url, read) == MediaMetadata(3, "Athan", "Unknown Reciter", "Islamic Prayers", [ThumbnailFor(cfg, url)])
    ensures read == Some(Tags(None, None, None)) ==>
      CastMetadata(cfg, url, read) == MediaMetadata(3, "Unknown Title", "Unknown Artist", "Unknown Album", [ThumbnailFor(cfg, url)])
    ensures forall t, a, b :: read == Some(Tags(Some(t), Some(a), Some(b))) && t != [] && a != [] && b != [] ==>
      CastMetadata(cfg, url, read) == MediaMetadata(3, t[0], a[0], b[0], [ThumbnailFor(cfg, url)])
  {
  }

  /**
   * All inputs: a file that cannot be read, or that has a tag with an empty
   * list, is cast with the cast defaults in every field, including the tags
   * that were read; otherwise each field falls back to its "Unknown" default
   * on its own.
   */
  lemma MetadataPerTag(cfg: Config, url: string, read: Option<Tags>)
    ensures read.None? || HasEmptyTag(read.value) ==>
      CastMetadata(cfg, url, read) == MediaMetadata(3, "Athan", "Unknown Reciter", "Islamic Prayers", [ThumbnailFor(cfg, url)])
    ensures read.Some? && !HasEmptyTag(read.value) ==>
      CastMetadata(cfg, url, read) == MediaMetadata(3, TagValue(read.value.title, "Unknown Title"),
        TagValue(read.value.artist, "Unknown Artist"), TagValue(read.value.album, "Unknown Album"), [ThumbnailFor(cfg, url)])
  {
    if read.Some? && !HasEmptyTag(read.value) {
      Id3MetadataValues(read);
    }
  }

  /** A missing artist falls back alone; an empty artist list discards the tags that were read. */
  lemma MetadataMixedTags(cfg: Config, url: string)
    ensures CastMetadata(cfg, url, Some(Tags(Some(["T"]), None, Some(["B"]))))
      == MediaMetadata(3, "T", "Unknown Artist", "B", [ThumbnailFor(cfg, url)])
    ensures CastMetadata(cfg, url, Some(Tags(Some(["T"]), Some([]), Some(["B"]))))
      == MediaMetadata(3, "Athan", "Unknown Reciter", "Islamic Prayers", [ThumbnailFor(cfg, url)])
  {
    MetadataPerTag(cfg, url, Some(Tags(Some(["T"]), None, Some(["B"]))));
    MetadataPerTag(cfg, url, Some(Tags(Some(["T"]), Some([]), Some(["B"]))));
  }
}
