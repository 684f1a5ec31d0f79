/** The cover-image picker (`ImageUpload`): it checks the chosen file, stores it under a fresh
    name that keeps its extension, and shows the stored image as a preview. */
module ImageUpload {
  import opened Wrappers
  import opened Types
  import opened Text

  /** The largest accepted size in bytes: 5 MiB. */
  const MaxImageSize: nat := 5 * 1024 * 1024

  const NotAnImageAlert := "Please select an image file"
  const TooLargeAlert := "Image size should be less than 5MB"
  const UploadFailedAlert := "Failed to upload image. Make sure the storage bucket is set up correctly."

  /** What the picker reads of a chosen file. */
  datatype FileInfo = FileInfo(name: string, mimeType: string, size: nat)

  /** `name.split('.').pop()`: the text after the last '.', or the whole name when it has none. */
  function Extension(name: string): (ext: string)
    ensures '.' !in ext
    ensures |ext| <= |name| && ext == name[|name| - |ext|..]
    ensures ext == name || (|ext| < |name| && name[|name| - |ext| - 1] == '.')
  {
    if name == [] || name[|name| - 1] == '.' then []
    else Extension(name[..|name| - 1]) + [name[|name| - 1]]
  }

  /** The extension of a name is what follows its last '.'. */
  lemma {:induction false} ExtensionAfterDot(prefix: string, ext: string)
    requires '.' !in ext
    ensures Extension(prefix + "." + ext) == ext
    decreases |ext|
  {
    var name := prefix + "." + ext;
    if ext != [] {
      var last := |ext| - 1;
      assert name[|name| - 1] == ext[last];
      assert name[..|name| - 1] == prefix + "." + ext[..last];
      ExtensionAfterDot(prefix, ext[..last]);
      assert ext == ext[..last] + [ext[last]];
    }
  }

  /** A non-empty string of decimal digits. */
  predicate IsDigits(s: string) {
    s != [] && forall i :: 0 <= i < |s| ==> '0' <= s[i] <= '9'
  }

  /** The number a string of decimal digits denotes. */
  function DigitsValue(s: string): nat
    requires forall i :: 0 <= i < |s| ==> '0' <= s[i] <= '9'
    decreases |s|
  {
    if s == [] then 0 else DigitsValue(s[..|s| - 1]) * 10 + (s[|s| - 1] as int - '0' as int)
  }

  /** `n.toString()` for a natural number: digits with no leading zero. */
  function DecimalString(n: nat): (r: string)
    ensures IsDigits(r)
    ensures r[0] == '0' ==> r == "0"
  {
    if n < 10 then [('0' as int + n) as char]
    else DecimalString(n / 10) + [('0' as int + n % 10) as char]
  }

  /** The digits of `n` denote `n`. */
  lemma {:induction false} DecimalStringValue(n: nat)
    ensures DigitsValue(DecimalString(n)) == n
  {
    if n >= 10 {
      DecimalStringValue(n / 10);
      var r := DecimalString(n);
      assert r[..|r| - 1] == DecimalString(n / 10);
    }
  }

  /** The stored name `<random>-<timestamp>.<ext>`; the random part and the timestamp are
      supplied by the caller. */
  function StoredName(randomPart: string, timestamp: nat, name: string): (r: string)
    ensures StartsWith(r, randomPart + "-")
  {
    randomPart + "-" + DecimalString(timestamp) + "." + Extension(name)
  }

  /** The timestamp makes the name fresh: for the same random part and the same chosen file,
      two different timestamps give two different stored names. */
  lemma StoredNamesDiffer(randomPart: string, t1: nat, t2: nat, name: string)
    requires t1 != t2
    ensures StoredName(randomPart, t1, name) != StoredName(randomPart, t2, name)
  {
    var d1, d2 := DecimalString(t1), DecimalString(t2);
    DecimalStringValue(t1);
    DecimalStringValue(t2);
    MiddleDecides(randomPart + "-", d1, d2, ".", Extension(name));
  }

  /** Strings that agree around a middle piece are equal only when the middle pieces are. */
  lemma MiddleDecides(a: string, d1: string, d2: string, b: string, c: string)
    ensures a + d1 + b + c == a + d2 + b + c ==> d1 == d2
  {
    if a + d1 + b + c == a + d2 + b + c {
      assert |d1| == |d2|;
      assert (a + d1 + b + c)[|a|..|a| + |d1|] == d1;
      assert (a + d2 + b + c)[|a|..|a| + |d2|] == d2;
    }
  }

  /** A stored file keeps the extension of the chosen one. */
  lemma StoredNameKeepsExtension(randomPart: string, timestamp: nat, name: string)
    ensures Extension(StoredName(randomPart, timestamp, name)) == Extension(name)
  {
    ExtensionAfterDot(randomPart + "-" + DecimalString(timestamp), Extension(name));
  }

  /** The outcome of `handleFileChange`'s checks. */
  datatype Verdict = NoFile | NotAnImage | TooLarge | Accepted(file: FileInfo)

  /** No file does nothing; a type that does not start with "image/" is refused before the size
      is looked at; a size above 5 MiB is refused; anything else is uploaded. */
  function Validate(file: Option<FileInfo>): (v: Verdict)
    ensures v == NoFile <==> file.None?
    ensures v.Accepted? <==> file.Some? && StartsWith(file.value.mimeType, "image/") && file.value.size <= MaxImageSize
    ensures v.Accepted? ==> v.file == file.value
    ensures v == NotAnImage <==> file.Some? && !StartsWith(file.value.mimeType, "image/")
  {
    match file
    case None => NoFile
    case Some(f) =>
      if !StartsWith(f.mimeType, "image/") then NotAnImage
      else if f.size > MaxImageSize then TooLarge
      else Accepted(f)
  }

  /** Exactly 5 MiB is accepted, one byte more is not. */
  lemma SizeLimitIsInclusive(name: string)
    ensures Validate(Some(FileInfo(name, "image/png", 5242880))).Accepted?
    ensures Validate(Some(FileInfo(name, "image/png", 5242881))) == TooLarge
  {
    assert "image/png"[..6] == "image/";
  }

  /** The alert a refusal shows. */
  function RefusalAlert(v: Verdict): (alert: Option<string>)
    ensures alert.None? <==> v == NoFile || v.Accepted?
    ensures v == NotAnImage ==> alert == Some(NotAnImageAlert)
    ensures v == TooLarge ==> alert == Some(TooLargeAlert)
  {
    match v
    case NotAnImage => Some(NotAnImageAlert)
    case TooLarge => Some(TooLargeAlert)
    case _ => None
  }

  /** The picker's state. */
  class Uploader {
    var preview: Option<string>
    var uploading: bool

    /** `useState(currentImage || null)`. */
    constructor (currentImage: Option<string>)
      ensures preview == OrNull(currentImage) && !uploading
    {
      preview := OrNull(currentImage);
      uploading := false;
    }

    /** `uploadImage`: the file goes to storage under a fresh name; only when that succeeds do
        the preview and the parent get its public URL. */
    method UploadImage(file: FileInfo, randomPart: string, timestamp: nat, storage: Outcome, publicUrlOf: string -> string)
      returns (path: string, notified: Option<string>, alert: Option<string>)
      modifies this
      ensures path == StoredName(randomPart, timestamp, file.name)
      ensures !uploading
      ensures storage.Success? ==> preview == Some(publicUrlOf(path)) && notified == preview && alert.None?
      ensures storage.Failure? ==> preview == old(preview) && notified.None? && alert == Some(UploadFailedAlert)
    {
      path := StoredName(randomPart, timestamp, file.name);
      uploading := true;
      if storage.Failure? {
        notified, alert := None, Some(UploadFailedAlert);
      } else {
        var url := publicUrlOf(path);
        preview := Some(url);
        notified, alert := Some(url), None;
      }
      uploading := false;
    }

    /** `handleFileChange`: a refused file changes nothing and uploads nothing; an accepted one
        is uploaded. */
    method HandleFileChange(file: Option<FileInfo>, randomPart: string, timestamp: nat, storage: Outcome, publicUrlOf: string -> string)
      returns (path: Option<string>, notified: Option<string>, alert: Option<string>)
      modifies this
      ensures !Validate(file).Accepted? ==>
                path.None? && notified.None? && alert == RefusalAlert(Validate(file))
                && preview == old(preview) && uploading == old(uploading)
      ensures Validate(file).Accepted? ==>
                path == Some(StoredName(randomPart, timestamp, file.value.name)) && !uploading
                && (storage.Success? ==> preview == Some(publicUrlOf(path.value)) && notified == preview && alert.None?)
                && (storage.Failure? ==> preview == old(preview) && notified.None? && alert == Some(UploadFailedAlert))
    {
      var verdict := Validate(file);
      if !verdict.Accepted? {
        return None, None, RefusalAlert(verdict);
      }
      var stored;
      stored, notified, alert := UploadImage(verdict.file, randomPart, timestamp, storage, publicUrlOf);
      path := Some(stored);
    }

    /** `handleRemove`: the preview goes, and the parent is told when it asked to be. */
    method HandleRemove(hasCallback: bool) returns (notified: bool)
      modifies this`preview
      ensures preview.None? && notified == hasCallback
    {
      preview := None;
      notified := hasCallback;
    }
  }
}
