/** internal/storage/keys.go: storage keys {channel}/{stream}/{kind}/{file}, and their prefixes. */
module StorageKeys {
  import opened Prelude

  datatype Kind = Raw | Audio | Frame | Clips | Vod

  function KindName(kind: Kind): (name: string)
    ensures Lacks(name, '/')
  {
    match kind
    case Raw => "raw"
    case Audio => "audio"
    case Frame => "frame"
    case Clips => "clips"
    case Vod => "vod"
  }

  function RawKey(channel: string, stream: string, fileID: string): string {
    channel + "/" + stream + "/raw/" + fileID + ".raw"
  }

  function AudioKey(channel: string, stream: string, fileID: string): string {
    channel + "/" + stream + "/audio/" + fileID + ".m4a"
  }

  function FrameKey(channel: string, stream: string, fileID: string): string {
    channel + "/" + stream + "/frame/" + fileID + ".jpg"
  }

  function ClipKey(channel: string, stream: string, id: string, ext: string): string {
    channel + "/" + stream + "/clips/" + id + ext
  }

  function VodKey(channel: string, stream: string, id: string, ext: string): string {
    channel + "/" + stream + "/vod/" + id + ext
  }

  function StreamPrefix(channel: string, stream: string): string {
    channel + "/" + stream + "/"
  }

  function RawPrefix(channel: string, stream: string): string {
    channel + "/" + stream + "/raw/"
  }

  function VodPrefix(channel: string, stream: string): string {
    channel + "/" + stream + "/vod/"
  }

  /** vodJobKey of internal/server/vod.go. */
  function VodJobKey(channel: string, stream: string): string {
    channel + "/" + stream
  }

  /** Some key builder applied to these names and this kind yields `key`. */
  ghost predicate IsKey(kind: Kind, channel: string, stream: string, key: string) {
    match kind
    case Raw => exists f :: key == RawKey(channel, stream, f)
    case Audio => exists f :: key == AudioKey(channel, stream, f)
    case Frame => exists f :: key == FrameKey(channel, stream, f)
    case Clips => exists f, ext :: key == ClipKey(channel, stream, f, ext)
    case Vod => exists f, ext :: key == VodKey(channel, stream, f, ext)
  }

  ghost predicate Named(channel: string, stream: string) {
    Lacks(channel, '/') && Lacks(stream, '/')
  }

  // ---------------------------------------------------------------- the layout

  /** {channel}/{stream}/{tail}, cut so that the separators show. */
  function Under(channel: string, stream: string, tail: string): string {
    channel + ['/'] + (stream + ['/'] + tail)
  }

  lemma {:induction false} UnderInjective(c1: string, s1: string, t1: string, c2: string, s2: string, t2: string)
    requires Named(c1, s1) && Named(c2, s2)
    ensures Under(c1, s1, t1) == Under(c2, s2, t2) ==> c1 == c2 && s1 == s2 && t1 == t2
  {
    if Under(c1, s1, t1) == Under(c2, s2, t2) {
      CutAtSeparator(c1, s1 + ['/'] + t1, c2, s2 + ['/'] + t2, '/');
      CutAtSeparator(s1, t1, s2, t2, '/');
    }
  }

  lemma {:induction false} PrefixUnder(c: string, s: string, tail: string, key: string)
    requires Under(c, s, tail) <= key
    ensures exists rest :: key == Under(c, s, tail + rest)
  {
    var rest := key[|Under(c, s, tail)|..];
    assert key == Under(c, s, tail) + rest;
    assert key == Under(c, s, tail + rest);
  }

  lemma {:induction false} KeyForm(c: string, s: string, kind: Kind, infix: string, f: string, ext: string)
    requires infix == ['/'] + KindName(kind) + ['/']
    ensures c + "/" + s + infix + f + ext == Under(c, s, KindName(kind) + ['/'] + (f + ext))
  {
  }

  lemma {:induction false} ChunkKeyIsUnder(kind: Kind, channel: string, stream: string, key: string)
    requires IsKey(kind, channel, stream, key) && (kind.Raw? || kind.Audio? || kind.Frame?)
    ensures exists file :: key == Under(channel, stream, KindName(kind) + ['/'] + file)
  {
    match kind
    case Raw =>
      var f :| key == RawKey(channel, stream, f);
      KeyForm(channel, stream, kind, "/raw/", f, ".raw");
    case Audio =>
      var f :| key == AudioKey(channel, stream, f);
      KeyForm(channel, stream, kind, "/audio/", f, ".m4a");
    case Frame =>
      var f :| key == FrameKey(channel, stream, f);
      KeyForm(channel, stream, kind, "/frame/", f, ".jpg");
  }

  lemma {:induction false} RenderKeyIsUnder(kind: Kind, channel: string, stream: string, key: string)
    requires IsKey(kind, channel, stream, key) && (kind.Clips? || kind.Vod?)
    ensures exists file :: key == Under(channel, stream, KindName(kind) + ['/'] + file)
  {
    match kind
    case Clips =>
      var f, ext :| key == ClipKey(channel, stream, f, ext);
      KeyForm(channel, stream, kind, "/clips/", f, ext);
    case Vod =>
      var f, ext :| key == VodKey(channel, stream, f, ext);
      KeyForm(channel, stream, kind, "/vod/", f, ext);
  }

  lemma {:induction false} KeyIsUnder(kind: Kind, channel: string, stream: string, key: string)
    requires IsKey(kind, channel, stream, key)
    ensures exists file :: key == Under(channel, stream, KindName(kind) + ['/'] + file)
  {
    if kind.Clips? || kind.Vod? {
      RenderKeyIsUnder(kind, channel, stream, key);
    } else {
      ChunkKeyIsUnder(kind, channel, stream, key);
    }
  }

  // ---------------------------------------------------------------- what a prefix selects

  /** A folder delete or probe of a stream reaches the keys of that stream and no other's. */
  lemma {:induction false} StreamPrefixSelects(kind: Kind, c: string, s: string, c2: string, s2: string, key: string)
    requires Named(c, s) && Named(c2, s2) && IsKey(kind, c2, s2, key)
    ensures StreamPrefix(c, s) <= key <==> c == c2 && s == s2
  {
    KeyIsUnder(kind, c2, s2, key);
    var file :| key == Under(c2, s2, KindName(kind) + ['/'] + file);
    assert StreamPrefix(c, s) == Under(c, s, []);
    if StreamPrefix(c, s) <= key {
      PrefixUnder(c, s, [], key);
      var rest :| key == Under(c, s, [] + rest);
      UnderInjective(c, s, [] + rest, c2, s2, KindName(kind) + ['/'] + file);
    }
  }

  function KindPrefix(kind: Kind, c: string, s: string): string {
    Under(c, s, KindName(kind) + ['/'])
  }

  lemma KindNamesDiffer(kind: Kind, kind2: Kind)
    ensures KindName(kind) == KindName(kind2) ==> kind == kind2
  {
    assert KindName(kind)[0] == KindName(kind2)[0] ==> kind == kind2;
  }

  lemma {:induction false} KindPrefixSelects(kind: Kind, kind2: Kind, c: string, s: string, c2: string, s2: string,
                                             key: string)
    requires Named(c, s) && Named(c2, s2) && IsKey(kind2, c2, s2, key)
    ensures KindPrefix(kind, c, s) <= key <==> kind == kind2 && c == c2 && s == s2
  {
    KeyIsUnder(kind2, c2, s2, key);
    var file :| key == Under(c2, s2, KindName(kind2) + ['/'] + file);
    if kind == kind2 && c == c2 && s == s2 {
      assert key == KindPrefix(kind, c, s) + file;
    }
    if KindPrefix(kind, c, s) <= key {
      PrefixUnder(c, s, KindName(kind) + ['/'], key);
      var rest :| key == Under(c, s, KindName(kind) + ['/'] + rest);
      UnderInjective(c, s, KindName(kind) + ['/'] + rest, c2, s2, KindName(kind2) + ['/'] + file);
      CutAtSeparator(KindName(kind), rest, KindName(kind2), file, '/');
      KindNamesDiffer(kind, kind2);
    }
  }

  /** The raw probe sees raw chunks of its own stream only. */
  lemma {:induction false} RawPrefixSelects(kind: Kind, c: string, s: string, c2: string, s2: string, key: string)
    requires Named(c, s) && Named(c2, s2) && IsKey(kind, c2, s2, key)
    ensures RawPrefix(c, s) <= key <==> kind == Raw && c == c2 && s == s2
  {
    assert RawPrefix(c, s) == KindPrefix(Raw, c, s);
    KindPrefixSelects(Raw, kind, c, s, c2, s2, key);
  }

  /** Listing a stream's VOD folder finds its renders only. */
  lemma {:induction false} VodPrefixSelects(kind: Kind, c: string, s: string, c2: string, s2: string, key: string)
    requires Named(c, s) && Named(c2, s2) && IsKey(kind, c2, s2, key)
    ensures VodPrefix(c, s) <= key <==> kind == Vod && c == c2 && s == s2
  {
    assert VodPrefix(c, s) == KindPrefix(Vod, c, s);
    KindPrefixSelects(Vod, kind, c, s, c2, s2, key);
  }

  lemma {:induction false} VodJobKeyInjective(c: string, s: string, c2: string, s2: string)
    requires Named(c, s) && Named(c2, s2)
    ensures VodJobKey(c, s) == VodJobKey(c2, s2) <==> c == c2 && s == s2
  {
    if VodJobKey(c, s) == VodJobKey(c2, s2) {
      assert VodJobKey(c, s) == c + ['/'] + s && VodJobKey(c2, s2) == c2 + ['/'] + s2;
      CutAtSeparator(c, s, c2, s2, '/');
    }
  }

  lemma {:induction false} RawKeyInjective(c: string, s: string, f: string, c2: string, s2: string, f2: string)
    requires Named(c, s) && Named(c2, s2)
    ensures RawKey(c, s, f) == RawKey(c2, s2, f2) <==> c == c2 && s == s2 && f == f2
  {
    if RawKey(c, s, f) == RawKey(c2, s2, f2) {
      assert RawKey(c, s, f) == Under(c, s, "raw/" + (f + ".raw"));
      assert RawKey(c2, s2, f2) == Under(c2, s2, "raw/" + (f2 + ".raw"));
      UnderInjective(c, s, "raw/" + (f + ".raw"), c2, s2, "raw/" + (f2 + ".raw"));
      assert ("raw/" + (f + ".raw"))[4..] == f + ".raw" && ("raw/" + (f2 + ".raw"))[4..] == f2 + ".raw";
      assert (f + ".raw")[..|f|] == f && (f2 + ".raw")[..|f2|] == f2;
    }
  }

  /** The layout that stored objects already have. */
  lemma {:induction false} KeyExamples()
    ensures RawKey("ch", "st", "id") == "ch/st/raw/id.raw"
    ensures AudioKey("ch", "st", "id") == "ch/st/audio/id.m4a"
    ensures FrameKey("ch", "st", "id") == "ch/st/frame/id.jpg"
    ensures ClipKey("ch", "st", "id", ".mp3") == "ch/st/clips/id.mp3"
    ensures VodKey("ch", "st", "id", ".mp4") == "ch/st/vod/id.mp4"
    ensures StreamPrefix("ch", "st") == "ch/st/" && RawPrefix("ch", "st") == "ch/st/raw/"
    ensures VodPrefix("ch", "st") == "ch/st/vod/" && VodJobKey("ch", "st") == "ch/st"
  {
  }
}
