/** prepareBuildRootfs: bringing the filesystem and its block device to exactly the requested size. */
module BuildRootfs {
  import opened Common
  import opened Ublkd
  import opened DeviceAttachment

  // ---------------------------------------------------------------- sizes

  const GIB := 0x4000_0000

  type Int64 = x: int | -MAX_INT64 - 1 <= x <= MAX_INT64

  datatype Size = Size(value: Int64) | BadSize

  /** The byte count, refused exactly when it is not positive or does not fit. */
  function DiskSizeBytes(sizeGiB: Int64): (r: Size)
    ensures r.Size? <==> 0 < sizeGiB && sizeGiB * GIB <= MAX_INT64
    ensures r.Size? ==> r.value == sizeGiB * GIB
  {
    if sizeGiB <= 0 then BadSize
    else if sizeGiB > MAX_INT64 / GIB then BadSize
    else Size(sizeGiB * GIB)
  }

  function DiskSizeMiB(sizeGiB: Int64): (r: Size)
    ensures r.Size? <==> 0 < sizeGiB && sizeGiB * 1024 <= MAX_INT64
    ensures r.Size? ==> r.value == sizeGiB * 1024
  {
    if sizeGiB <= 0 then BadSize
    else if sizeGiB > MAX_INT64 / 1024 then BadSize
    else Size(sizeGiB * 1024)
  }

  /** The least number of whole GiB that holds the size; only a size that is not positive is refused. */
  function BytesToGiBCeil(size: Int64): (r: Size)
    ensures r.Size? <==> size > 0
    ensures r.Size? ==> 0 < r.value && (r.value - 1) * GIB < size <= r.value * GIB
  {
    if size <= 0 then BadSize
    else Size((size - 1) / GIB + 1)
  }

  /** Whole GiB survive the trip through bytes. */
  lemma GiBRoundTrip(sizeGiB: Int64)
    ensures DiskSizeBytes(sizeGiB).Size? ==> BytesToGiBCeil(DiskSizeBytes(sizeGiB).value) == Size(sizeGiB)
  {
    if DiskSizeBytes(sizeGiB).Size? {
      var r := BytesToGiBCeil(sizeGiB * GIB).value;
      assert (r - 1) * GIB < sizeGiB * GIB <= r * GIB;
    }
  }

  // ---------------------------------------------------------------- the disk

  /** The writable upper, the ext4 filesystem inside, and the size the attached device shows. */
  class Disk {
    var upperBytes: int
    var filesystemBytes: int
    var deviceBytes: int

    /** The filesystem fits the disk it lives on. */
    predicate Fits()
      reads this
    {
      filesystemBytes <= upperBytes
    }

    /** A device shows the size its upper has. */
    ghost predicate Shown(ublkd: Daemon, config: Config)
      reads this, ublkd
    {
      ublkd.IdsOf(config) != {} ==> deviceBytes == upperBytes
    }

    constructor (upperBytes: int, filesystemBytes: int)
      ensures this.upperBytes == upperBytes && this.filesystemBytes == filesystemBytes
    {
      this.upperBytes, this.filesystemBytes, deviceBytes := upperBytes, filesystemBytes, 0;
    }

    /** resize2fs on the attached device. It is never asked for more than the device holds. */
    method ResizeFilesystem(target: int, calm: bool) returns (ok: bool)
      requires filesystemBytes <= deviceBytes && target <= deviceBytes
      modifies this`filesystemBytes
      ensures filesystemBytes <= deviceBytes
      ensures ok ==> filesystemBytes == target
      ensures calm ==> ok
    {
      var size: int := *;
      ok := Try(calm);
      filesystemBytes := if ok || size > deviceBytes then target else size;
    }

    /** overlaybd-resize. It never cuts the filesystem, and never runs under a device or an Add that may still land. */
    method ResizeUpper(target: int, ublkd: Daemon, config: Config) returns (ok: bool)
      requires filesystemBytes <= target
      requires ublkd.IdsOf(config) == {} && config !in ublkd.inFlight
      modifies this`upperBytes
      ensures upperBytes == target || (!ok && upperBytes == old(upperBytes))
      ensures ublkd.calm ==> ok
    {
      ok := Try(ublkd.calm);
      var landed := *;
      if ok || landed { upperBytes := target; }
    }

    /** The closing size checks: they pass only when both sizes are the target, and on a calm host exactly then. */
    method CheckSizes(target: int, calm: bool) returns (ok: bool)
      ensures ok ==> deviceBytes == filesystemBytes == target
      ensures calm ==> (ok <==> deviceBytes == filesystemBytes == target)
    {
      ok := Try(calm);                      // reading the device size
      if !ok || deviceBytes != target { return false; }
      ok := Try(calm);                      // reading the filesystem size
      if !ok || filesystemBytes != target { return false; }
      ok := Try(calm);                      // e2fsck
    }
  }

  /** One attempt to attach: the device shows the upper's size, whether or not the reply is seen. */
  method Attach(attachment: DeviceAttachment, ublkd: Daemon, disk: Disk) returns (ok: bool)
    requires attachment.Valid(ublkd) && !attachment.attached
    modifies attachment, ublkd`devices, ublkd`inFlight, disk`deviceBytes
    ensures attachment.Valid(ublkd) && disk.Shown(ublkd, attachment.config) && ublkd.OthersSettled({attachment.config})
    ensures ok ==> ublkd.IdsOf(attachment.config) == {attachment.devID} && attachment.config !in ublkd.inFlight
    ensures ok ==> disk.deviceBytes == disk.upperBytes && attachment.attached
    ensures ublkd.calm && attachment.config !in old(ublkd.inFlight) ==> ok
  {
    ok := attachment.Add(ublkd);
    disk.deviceBytes := disk.upperBytes;
  }

  /** e2fsck, which refuses a filesystem larger than its device; then a resize unless the size is already right. */
  method FitFilesystem(disk: Disk, target: int, calm: bool) returns (ok: bool)
    requires target <= disk.deviceBytes
    modifies disk`filesystemBytes
    ensures old(disk.filesystemBytes) <= disk.deviceBytes ==> disk.filesystemBytes <= disk.deviceBytes
    ensures old(disk.filesystemBytes) > disk.deviceBytes ==> !ok && disk.filesystemBytes == old(disk.filesystemBytes)
    ensures ok ==> disk.filesystemBytes == target
    ensures calm ==> (ok <==> old(disk.filesystemBytes) <= disk.deviceBytes)
  {
    ok := Try(calm);                        // repairing, and reading the size
    if !ok || disk.filesystemBytes > disk.deviceBytes { return false; }
    if disk.filesystemBytes != target {
      ok := disk.ResizeFilesystem(target, calm);
      if !ok { return; }
      ok := Try(calm);                      // verifying
    }
  }

  /** The first size of the upper: whole GiB for the source, or the target if that is larger. */
  function InitialGiB(source: Int64, targetGiB: Int64): int
    requires source > 0
  {
    var sourceGiB := BytesToGiBCeil(source).value;
    if targetGiB > sourceGiB then targetGiB else sourceGiB
  }

  /** Both sizes are valid, and the first upper holds the filesystem. */
  predicate Possible(source: Int64, filesystem: int, targetGiB: Int64) {
    && 0 < source && 0 < targetGiB && targetGiB * GIB <= MAX_INT64
    && filesystem <= InitialGiB(source, targetGiB) * GIB
  }

  datatype Prepared = Ready | NotReady

  /**
   * For every source, filesystem and target size: the filesystem never exceeds its device, unless the image came
   * so, and then nothing is resized; the upper is resized only while nothing is attached; success means exactly
   * one attached device whose size and filesystem size are the target. On a calm host it succeeds exactly for
   * valid sizes whose filesystem the first upper holds: the closing checks never refuse by themselves.
   */
  method PrepareBuildRootfs(ublkd: Daemon, config: Config, source: Int64, filesystem: int, targetGiB: Int64)
    returns (r: Prepared, attachment: DeviceAttachment, disk: Disk)
    requires config in ublkd.ours && ublkd.IdsOf(config) == {} && config !in ublkd.inFlight
    modifies ublkd
    ensures fresh(attachment) && fresh(disk)
    ensures attachment.config == config && attachment.Valid(ublkd) && disk.Shown(ublkd, config)
    ensures !disk.Fits() ==> r.NotReady? && disk.filesystemBytes == filesystem && source < filesystem
    ensures r.Ready? ==>
              && ublkd.IdsOf(config) == {attachment.devID} && config !in ublkd.inFlight
              && disk.upperBytes == disk.deviceBytes == disk.filesystemBytes == targetGiB * GIB
    ensures r.Ready? ==> Possible(source, filesystem, targetGiB)
    ensures ublkd.calm ==> (r.Ready? <==> Possible(source, filesystem, targetGiB))
    ensures ublkd.DetachedOnly(config)
  {
    attachment := new DeviceAttachment(config);
    disk := new Disk(source, filesystem);
    r := NotReady;
    var targetBytes := DiskSizeBytes(targetGiB);
    if targetBytes.BadSize? { return; }
    var sourceGiB := BytesToGiBCeil(source);
    if sourceGiB.BadSize? { return; }
    var initialGiB := sourceGiB.value;
    if targetGiB > initialGiB { initialGiB := targetGiB; }
    var ok := Try(ublkd.calm);              // probing the source, and writing the config
    if !ok { return; }
    disk.upperBytes := initialGiB * GIB;

    ok := Attach(attachment, ublkd, disk);
    if !ok { return; }
    ok := FitFilesystem(disk, targetBytes.value, ublkd.calm);
    if !ok { return; }
    if initialGiB != targetGiB {
      ok := attachment.Detach(ublkd);
      if !ok { return; }
      ok := disk.ResizeUpper(targetBytes.value, ublkd, config);
      if !ok { return; }
      ok := Attach(attachment, ublkd, disk);
      if !ok { return; }
    }
    ok := disk.CheckSizes(targetBytes.value, ublkd.calm);
    if ok { r := Ready; }
  }
}
