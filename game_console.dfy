/** The emulated console's front end: it loads the BIOS image and the game
    disc, starts and stops the worker that drives the native core, saves
    and loads state around a paused worker, and answers the native core's
    media callbacks.  The worker thread is an object that InternalStart
    creates afresh; the native core, the clock and the file system are
    inputs (see README). */
module Console {
  import opened Outcomes
  import FrameSpeed
  import Pacing

  /** Size the BIOS image must have: 1 MiB. */
  const RomSize := 1024 * 1024
  /** Bytes per disc sector. */
  const SectorSize := 2048
  /** Capacity of the console's frame-speed sampler. */
  const SpeedSamples := 4

  type Byte = x: int | 0 <= x < 256
  type Int32 = x: int | -0x8000_0000 <= x < 0x8000_0000

  /** C#'s unchecked conversion to `int`: keep the low 32 bits, signed. */
  function WrapInt32(x: int): (r: Int32)
    ensures (r - x) % 0x1_0000_0000 == 0
    ensures -0x8000_0000 <= x < 0x8000_0000 ==> r == x
  {
    (x + 0x8000_0000) % 0x1_0000_0000 - 0x8000_0000
  }

  datatype ConsoleError =
    | BadBiosRom        // BadBiosRomException
    | BadGameRom        // BadGameRomException
    | FileError         // an exception from opening or creating a state file
    | ReaderClosed      // the disc reader was closed by Stop
    | NegativePosition  // a seek to a negative stream position

  // ---------------------------------------------------------------------
  // Files, as far as the console uses them.

  /** The files that exist, and the names the process may not write: a
      FileStream on them can be neither created nor opened, since
      FileMode.Open asks for read and write access. */
  datatype FileSystem = FileSystem(files: map<string, seq<Byte>>, readOnly: set<string>)

  /** File.ReadAllBytes. */
  function ReadAllBytes(fs: FileSystem, name: string): (r: Result<seq<Byte>, ConsoleError>)
    ensures r.Ok? <==> name in fs.files
    ensures r.Ok? ==> r.value == fs.files[name]
  {
    if name in fs.files then Ok(fs.files[name]) else Err(FileError)
  }

  /** A FileStream in FileMode.Create, then BinaryWriter.Write(data). */
  function WriteFile(fs: FileSystem, name: string, data: seq<Byte>): (r: Result<FileSystem, ConsoleError>)
  {
    if name in fs.readOnly then Err(FileError)
    else Ok(fs.(files := fs.files[name := data]))
  }

  /** A FileStream in FileMode.Open, then BinaryReader.ReadBytes(count),
      which returns fewer bytes when the file is shorter. */
  function ReadFile(fs: FileSystem, name: string, count: nat): (r: Result<seq<Byte>, ConsoleError>)
  {
    if name !in fs.files || name in fs.readOnly then Err(FileError)
    else var data := fs.files[name]; Ok(if count <= |data| then data[..count] else data)
  }

  /** A state saved under a writable name and loaded back with at least its
      size gives the same bytes; the write touches no other file. */
  lemma SaveThenLoad(fs: FileSystem, name: string, data: seq<Byte>, other: string)
    ensures WriteFile(fs, name, data).Ok? <==> name !in fs.readOnly
    ensures name !in fs.readOnly ==>
              ReadFile(WriteFile(fs, name, data).value, name, |data|) == Ok(data)
    ensures name !in fs.readOnly && other != name ==>
              forall count: nat :: ReadFile(WriteFile(fs, name, data).value, other, count) == ReadFile(fs, other, count)
  {
    assert data[..|data|] == data;
  }

  /** Loading reads the requested number of bytes, or the whole file when
      it is shorter, and fails only when the file does not exist or may not
      be written. */
  lemma LoadReadsPrefix(fs: FileSystem, name: string, count: nat)
    ensures ReadFile(fs, name, count).Ok? <==> name in fs.files && name !in fs.readOnly
    ensures var r := ReadFile(fs, name, count);
            r.Ok? ==> |r.value| == (if count <= |fs.files[name]| then count else |fs.files[name]|)
                      && r.value <= fs.files[name]
  {
  }

  // ---------------------------------------------------------------------
  // The disc image and the media callbacks.

  /** The BinaryReader over the game disc: its bytes, the stream position
      and whether Stop has closed it. */
  datatype MediaReader = MediaReader(image: seq<Byte>, position: int, isOpen: bool)

  /** string.IsNullOrEmpty on the game file name. */
  predicate NoMedia(name: Option<string>) {
    name.None? || name.value == ""
  }

  /** Opening the game disc in FileMode.Open; a file that is missing or may
      not be written throws, which Start reports as BadGameRomException. */
  function OpenMedia(fs: FileSystem, name: string): (r: Result<MediaReader, ConsoleError>)
    ensures r.Ok? <==> name in fs.files && name !in fs.readOnly
    ensures r.Ok? ==> r.value == MediaReader(fs.files[name], 0, true)
    ensures r.Err? ==> r.error == BadGameRom
  {
    if name in fs.files && name !in fs.readOnly then Ok(MediaReader(fs.files[name], 0, true))
    else Err(BadGameRom)
  }

  /** GetDiscSize: 0 with no disc, else the stream length shifted right by
      11, cast to `int`. */
  function DiscSize(reader: Option<MediaReader>): (r: Result<Int32, ConsoleError>)
  {
    match reader
    case None => Ok(0)
    case Some(m) =>
      if !m.isOpen then Err(ReaderClosed)
      else Ok(WrapInt32(|m.image| / SectorSize))  // length >> 11 of a non-negative length
  }

  /** The disc size is the number of whole sectors on the disc (for any disc
      under 4 TiB, where the cast to `int` cannot wrap); with no disc it is
      0, and a closed reader throws. */
  lemma DiscSizeCountsSectors(reader: Option<MediaReader>)
    ensures reader.None? ==> DiscSize(reader) == Ok(0)
    ensures reader.Some? && !reader.value.isOpen ==> DiscSize(reader) == Err(ReaderClosed)
    ensures reader.Some? && reader.value.isOpen && |reader.value.image| < 0x400_0000_0000 ==>
              var r := DiscSize(reader);
              r.Ok? && r.value >= 0 && r.value * SectorSize <= |reader.value.image| < (r.value + 1) * SectorSize
  {
  }

  /** Read2048's seek target: `2048 * currentSector`, an `int` product. */
  function SectorOffset(sector: Int32): Int32 {
    WrapInt32(SectorSize * sector)
  }

  /** The seek is exact for every sector below 2^20 (2 GiB), and the
      product wraps to a negative position at 2^20. */
  lemma SectorOffsetRange(sector: Int32)
    ensures 0 <= sector < 0x10_0000 ==> SectorOffset(sector) == SectorSize * sector
    ensures SectorOffset(0x10_0000) < 0
  {
  }

  /** Read2048 on an open reader: seek to the sector's offset, then
      ReadBytes(2048), which stops at the end of the disc. */
  function ReadSector(m: MediaReader, sector: Int32): (r: Result<(MediaReader, seq<Byte>), ConsoleError>)
  {
    var offset := SectorOffset(sector);
    if !m.isOpen then Err(ReaderClosed)
    else if offset < 0 then Err(NegativePosition)
    else
      var bytes := if offset >= |m.image| then []
                   else if offset + SectorSize <= |m.image| then m.image[offset..offset + SectorSize]
                   else m.image[offset..];
      Ok((m.(position := offset + |bytes|), bytes))
  }

  /** Every sector below the disc size reads as exactly its own 2048 bytes,
      leaving the stream just past it. */
  lemma SectorsBelowDiscSizeReadWhole(m: MediaReader, sector: Int32)
    requires m.isOpen && |m.image| < 0x8000_0000
    requires 0 <= sector && DiscSize(Some(m)).Ok? && sector < DiscSize(Some(m)).value
    ensures ReadSector(m, sector).Ok?
    ensures ReadSector(m, sector).value.1 == m.image[SectorSize * sector..SectorSize * (sector + 1)]
    ensures ReadSector(m, sector).value.0.position == SectorSize * (sector + 1)
  {
    DiscSizeCountsSectors(Some(m));
    SectorOffsetRange(sector);
  }

  // ---------------------------------------------------------------------
  // The console object.

  /** A worker thread; each InternalStart creates a new one. */
  class Worker {
    constructor () {}
  }

  datatype LifecycleState = LifecycleState(
    worker: Worker?, stopWorkerSignal: bool, running: bool, coreInitialized: bool,
    biosRomCopy: Option<seq<Byte>>, gameRomFileName: Option<string>,
    gameRomReader: Option<MediaReader>, currentSector: Int32)

  class GameConsole {
    var worker: Worker?
    var stopWorkerSignal: bool
    var running: bool
    /** Between FreeDOCore.Initialize and FreeDOCore.Destroy. */
    var coreInitialized: bool
    var biosRomCopy: Option<seq<Byte>>
    var gameRomFileName: Option<string>
    var gameRomReader: Option<MediaReader>
    var currentSector: Int32
    var isSwapFrameSignaled: bool
    const speedCalculator: FrameSpeed.FrameSpeedCalculator
    /** The pinned frame buffer handed to the native core. */
    const framePtr: int

    /** Everything but the swap flag: what the worker thread leaves alone. */
    function Lifecycle(): LifecycleState
      reads this
    {
      LifecycleState(worker, stopWorkerSignal, running, coreInitialized,
                     biosRomCopy, gameRomFileName, gameRomReader, currentSector)
    }

    /** A worker exists exactly while the console runs, and a live worker
        has not been told to stop. */
    predicate Valid()
      reads this, speedCalculator, speedCalculator.samples
    {
      (running <==> worker != null)
      && (worker != null ==> !stopWorkerSignal)
      && speedCalculator.Valid()
      && speedCalculator.samples.Length == SpeedSamples
    }

    constructor (framePtr: int)
      ensures Valid() && !running && worker == null && !coreInitialized
      ensures biosRomCopy.None? && gameRomFileName.None? && gameRomReader.None?
      ensures currentSector == 0 && !isSwapFrameSignaled
      ensures speedCalculator.State() == FrameSpeed.Fresh(SpeedSamples)
      ensures this.framePtr == framePtr
    {
      worker := null;
      stopWorkerSignal := false;
      running := false;
      coreInitialized := false;
      biosRomCopy := None;
      gameRomFileName := None;
      gameRomReader := None;
      currentSector := 0;
      isSwapFrameSignaled := false;
      speedCalculator := new FrameSpeed.FrameSpeedCalculator(SpeedSamples);
      this.framePtr := framePtr;
    }

    /** Start: nothing when a worker exists; otherwise read the BIOS (which
        must be exactly 1 MiB), open the game disc unless no name is given,
        and only then mark the console running and start a worker. */
    method Start(fs: FileSystem, biosRomFileName: string, gameRomFileName: Option<string>)
      returns (outcome: Outcome<ConsoleError>)
      requires Valid()
      modifies this
      ensures Valid()
      ensures old(worker) != null ==> outcome == Pass && unchanged(this)
      // BIOS missing: BadBiosRomException, nothing changes
      ensures old(worker) == null && biosRomFileName !in fs.files ==>
                outcome == Fail(BadBiosRom) && unchanged(this)
      // the copy is kept even when its size is wrong
      ensures old(worker) == null && biosRomFileName in fs.files ==>
                biosRomCopy == Some(fs.files[biosRomFileName])
      ensures old(worker) == null && biosRomFileName in fs.files && |fs.files[biosRomFileName]| != RomSize ==>
                outcome == Fail(BadBiosRom)
      // a disc that cannot be opened: BadGameRomException
      ensures old(worker) == null && biosRomFileName in fs.files && |fs.files[biosRomFileName]| == RomSize
              && !NoMedia(gameRomFileName) && OpenMedia(fs, gameRomFileName.value).Err? ==>
                outcome == Fail(BadGameRom)
      // a 1 MiB BIOS and no media, or a disc that opens: the console runs
      ensures old(worker) == null && biosRomFileName in fs.files && |fs.files[biosRomFileName]| == RomSize
              && (NoMedia(gameRomFileName) || OpenMedia(fs, gameRomFileName.value).Ok?) ==>
                outcome == Pass
      // on any failure the console stays stopped with its old disc
      ensures outcome.Fail? ==>
                !running && worker == null && coreInitialized == old(coreInitialized)
                && this.gameRomFileName == old(this.gameRomFileName) && gameRomReader == old(gameRomReader)
      // on success a new worker runs over the selected disc, or none
      ensures old(worker) == null && outcome == Pass ==>
                running && fresh(worker) && !stopWorkerSignal && coreInitialized
                && (NoMedia(gameRomFileName) ==> this.gameRomFileName.None? && gameRomReader.None?)
                && (!NoMedia(gameRomFileName) ==>
                      this.gameRomFileName == gameRomFileName
                      && gameRomReader == Some(OpenMedia(fs, gameRomFileName.value).value))
      ensures currentSector == old(currentSector) && isSwapFrameSignaled == old(isSwapFrameSignaled)
    {
      if worker != null {
        return Pass;
      }

      var bios := ReadAllBytes(fs, biosRomFileName);
      if bios.Err? {
        return Fail(BadBiosRom);
      }
      biosRomCopy := Some(bios.value);

      if |bios.value| != RomSize {
        return Fail(BadBiosRom);
      }

      if !NoMedia(gameRomFileName) {
        var media := OpenMedia(fs, gameRomFileName.value);
        if media.Err? {
          return Fail(BadGameRom);
        }
        gameRomReader := Some(media.value);
        this.gameRomFileName := gameRomFileName;
      } else {
        gameRomReader := None;
        this.gameRomFileName := None;
      }

      running := true;
      coreInitialized := true;  // FreeDOCore.Initialize
      InternalStart();
      outcome := Pass;
    }

    /** Stop: nothing when no worker exists; otherwise stop the worker,
        close the disc reader (keeping it and its name), shut the core down
        and mark the console stopped. */
    method Stop()
      requires Valid()
      modifies this
      ensures Valid()
      ensures old(worker) == null ==> unchanged(this)
      ensures old(worker) != null ==>
                worker == null && stopWorkerSignal && !running && !coreInitialized
                && gameRomReader == (if old(gameRomReader).None? then None
                                     else Some(old(gameRomReader).value.(isOpen := false)))
      ensures gameRomFileName == old(gameRomFileName) && biosRomCopy == old(biosRomCopy)
      ensures currentSector == old(currentSector) && isSwapFrameSignaled == old(isSwapFrameSignaled)
    {
      if worker == null {
        return;
      }
      InternalStop();
      if gameRomReader.Some? {
        gameRomReader := Some(gameRomReader.value.(isOpen := false));
      }
      coreInitialized := false;  // FreeDOCore.Destroy
      running := false;
    }

    /** SaveState: pause a running worker, write the core's state image
        (`saveData`, what DoSave fills in) to the file, and restart the
        worker in `finally`, whether or not the write failed. */
    method SaveState(fs: FileSystem, saveStateFileName: string, saveData: seq<Byte>)
      returns (fs': FileSystem, outcome: Outcome<ConsoleError>)
      requires Valid()
      modifies this
      ensures Valid()
      ensures running == old(running)
      ensures old(running) ==> fresh(worker) && !stopWorkerSignal
      ensures !old(running) ==> worker == old(worker)
      ensures WriteFile(fs, saveStateFileName, saveData).Ok? ==>
                outcome == Pass && fs' == WriteFile(fs, saveStateFileName, saveData).value
      ensures WriteFile(fs, saveStateFileName, saveData).Err? ==>
                outcome == Fail(WriteFile(fs, saveStateFileName, saveData).error) && fs' == fs
      ensures coreInitialized == old(coreInitialized) && biosRomCopy == old(biosRomCopy)
      ensures gameRomFileName == old(gameRomFileName) && gameRomReader == old(gameRomReader)
      ensures currentSector == old(currentSector) && isSwapFrameSignaled == old(isSwapFrameSignaled)
    {
      if running {
        InternalStop();
      }
      var written := WriteFile(fs, saveStateFileName, saveData);
      if written.Ok? {
        fs', outcome := written.value, Pass;
      } else {
        fs', outcome := fs, Fail(written.error);
      }
      // finally
      if running {
        InternalStart();
      }
    }

    /** LoadState: pause a running worker, read up to `saveSize` bytes of the
        file (what DoLoad is handed), and restart the worker in `finally`,
        whether or not the read failed. */
    method LoadState(fs: FileSystem, saveStateFileName: string, saveSize: nat)
      returns (loaded: seq<Byte>, outcome: Outcome<ConsoleError>)
      requires Valid()
      modifies this
      ensures Valid()
      ensures running == old(running)
      ensures old(running) ==> fresh(worker) && !stopWorkerSignal
      ensures !old(running) ==> worker == old(worker)
      ensures ReadFile(fs, saveStateFileName, saveSize).Ok? ==>
                outcome == Pass && loaded == ReadFile(fs, saveStateFileName, saveSize).value
      ensures ReadFile(fs, saveStateFileName, saveSize).Err? ==>
                outcome == Fail(ReadFile(fs, saveStateFileName, saveSize).error) && loaded == []
      ensures coreInitialized == old(coreInitialized) && biosRomCopy == old(biosRomCopy)
      ensures gameRomFileName == old(gameRomFileName) && gameRomReader == old(gameRomReader)
      ensures currentSector == old(currentSector) && isSwapFrameSignaled == old(isSwapFrameSignaled)
    {
      if running {
        InternalStop();
      }
      var read := ReadFile(fs, saveStateFileName, saveSize);
      if read.Ok? {
        loaded, outcome := read.value, Pass;
      } else {
        loaded, outcome := [], Fail(read.error);
      }
      // finally
      if running {
        InternalStart();
      }
    }

    /** Clear the stop signal and start a new worker. */
    method InternalStart()
      modifies this
      ensures fresh(worker) && !stopWorkerSignal
      ensures running == old(running) && coreInitialized == old(coreInitialized)
      ensures biosRomCopy == old(biosRomCopy)
      ensures gameRomFileName == old(gameRomFileName) && gameRomReader == old(gameRomReader)
      ensures currentSector == old(currentSector) && isSwapFrameSignaled == old(isSwapFrameSignaled)
    {
      stopWorkerSignal := false;
      worker := new Worker();
    }

    /** Signal the worker to stop, wait for it, and forget it. */
    method InternalStop()
      requires worker != null
      modifies this
      ensures worker == null && stopWorkerSignal
      ensures running == old(running) && coreInitialized == old(coreInitialized)
      ensures biosRomCopy == old(biosRomCopy)
      ensures gameRomFileName == old(gameRomFileName) && gameRomReader == old(gameRomReader)
      ensures currentSector == old(currentSector) && isSwapFrameSignaled == old(isSwapFrameSignaled)
    {
      stopWorkerSignal := true;
      worker := null;
    }

    // -------------------------------------------------------------------
    // Callbacks from the native core.

    /** SwapFrame: note that a frame is complete; the frame is returned as
        given. */
    method SwapFrame(currentFrame: int) returns (r: int)
      modifies this
      ensures r == currentFrame && isSwapFrameSignaled
      ensures Lifecycle() == old(Lifecycle())
    {
      isSwapFrameSignaled := true;
      r := currentFrame;
    }

    /** OnSector: remember the sector the next Read2048 reads. */
    method OnSector(sectorNumber: Int32)
      modifies this
      ensures currentSector == sectorNumber
      ensures worker == old(worker) && stopWorkerSignal == old(stopWorkerSignal)
      ensures running == old(running) && coreInitialized == old(coreInitialized)
      ensures biosRomCopy == old(biosRomCopy) && isSwapFrameSignaled == old(isSwapFrameSignaled)
      ensures gameRomFileName == old(gameRomFileName) && gameRomReader == old(gameRomReader)
    {
      currentSector := sectorNumber;
    }

    /** GetDiscSize on the console's current reader. */
    function GetDiscSize(): Result<Int32, ConsoleError>
      reads this
    {
      DiscSize(gameRomReader)
    }

    /** Read2048: nothing with no disc; otherwise the bytes of the current
        sector (the copy into the core's buffer is not modelled). */
    method Read2048() returns (bytes: seq<Byte>, outcome: Outcome<ConsoleError>)
      modifies this
      ensures old(gameRomReader).None? ==> bytes == [] && outcome == Pass && gameRomReader.None?
      ensures old(gameRomReader).Some? ==>
                var r := ReadSector(old(gameRomReader).value, currentSector);
                (r.Ok? ==> outcome == Pass && bytes == r.value.1 && gameRomReader == Some(r.value.0))
                && (r.Err? ==> outcome == Fail(r.error) && bytes == [] && gameRomReader == old(gameRomReader))
      ensures worker == old(worker) && stopWorkerSignal == old(stopWorkerSignal)
      ensures running == old(running) && coreInitialized == old(coreInitialized)
      ensures biosRomCopy == old(biosRomCopy) && isSwapFrameSignaled == old(isSwapFrameSignaled)
      ensures gameRomFileName == old(gameRomFileName) && currentSector == old(currentSector)
    {
      if gameRomReader.None? {
        return [], Pass;
      }
      var r := ReadSector(gameRomReader.value, currentSector);
      if r.Err? {
        return [], Fail(r.error);
      }
      gameRomReader := Some(r.value.0);
      bytes, outcome := r.value.1, Pass;
    }

    // -------------------------------------------------------------------
    // The worker thread.

    /** One DoExecuteFrame of the native core; `swaps` says at which steps
        the core calls SwapFrame. */
    method DoExecuteFrame(swaps: seq<bool>, step: int)
      modifies this
      ensures isSwapFrameSignaled == (old(isSwapFrameSignaled) || Pacing.Signalled(swaps, step))
      ensures Lifecycle() == old(Lifecycle())
    {
      if Pacing.Signalled(swaps, step) {
        var _ := SwapFrame(framePtr);
      }
    }

    /** The inner loop: run the core until a step swaps a frame, at most
        100 steps; returns the number of steps run. */
    method ExecuteFrames(swaps: seq<bool>) returns (lastFrameCount: int)
      modifies this
      ensures lastFrameCount == Pacing.FramesRun(swaps)
      ensures isSwapFrameSignaled == Pacing.Signalled(swaps, lastFrameCount - 1)
      ensures Lifecycle() == old(Lifecycle())
    {
      isSwapFrameSignaled := false;
      lastFrameCount := 0;
      // do { … } while (…): the first step runs unconditionally
      DoExecuteFrame(swaps, lastFrameCount);
      lastFrameCount := lastFrameCount + 1;
      while !isSwapFrameSignaled && lastFrameCount < Pacing.MaximumFrameCount
        invariant 1 <= lastFrameCount <= Pacing.MaximumFrameCount
        invariant isSwapFrameSignaled == Pacing.Signalled(swaps, lastFrameCount - 1)
        invariant Pacing.FramesRun(swaps) == Pacing.FramesFrom(swaps, lastFrameCount)
        invariant Lifecycle() == old(Lifecycle())
        decreases Pacing.MaximumFrameCount - lastFrameCount
      {
        DoExecuteFrame(swaps, lastFrameCount);
        lastFrameCount := lastFrameCount + 1;
      }
    }

    /** One iteration of the worker loop, up to the sleep it asks for:
        the decision at clock reading `now`, the speed sample if there is
        one, then the frames of the core. */
    method Iteration(lastSample: int, lastTarget: int, lastFrameCount: int, now: int, swaps: seq<bool>,
                     frequency: int, ghost s0: FrameSpeed.Sampler, ghost fed: seq<real>)
      returns (sample: int, target: int, frameCount: int, sleepTime: int, ghost fed': seq<real>)
      requires frequency > 0 && Pacing.Settled(Pacing.PaceState(lastSample, lastTarget, lastFrameCount))
      requires FrameSpeed.WellFormed(s0.ring)
      requires speedCalculator.Valid() && speedCalculator.State() == FrameSpeed.Run(s0, fed)
      modifies this, speedCalculator, speedCalculator.samples
      ensures forall sleeps: seq<int> ::
                Pacing.Iterate(Pacing.Trace(Pacing.PaceState(lastSample, lastTarget, lastFrameCount), sleeps, fed),
                               now, swaps, frequency)
                == Pacing.Trace(Pacing.PaceState(sample, target, frameCount), sleeps + [sleepTime], fed')
      ensures speedCalculator.Valid() && speedCalculator.State() == FrameSpeed.Run(s0, fed')
      ensures Lifecycle() == old(Lifecycle())
    {
      var p := Pacing.PaceState(lastSample, lastTarget, lastFrameCount);
      var d := Pacing.Decide(p, now, frequency);
      fed' := fed;
      if d.speed.Some? {
        var _ := speedCalculator.AddSample(d.speed.value);
        FrameSpeed.RunSnoc(s0, fed, d.speed.value);
        fed' := fed + [d.speed.value];
      }
      sample, target, sleepTime := d.sample, d.target, d.sleepTime;
      if sleepTime < 0 {
        sleepTime := 0;
      }
      frameCount := ExecuteFrames(swaps);
      forall sleeps: seq<int>
        ensures Pacing.Iterate(Pacing.Trace(p, sleeps, fed), now, swaps, frequency)
                == Pacing.Trace(Pacing.PaceState(sample, target, frameCount), sleeps + [sleepTime], fed')
      {
        Pacing.IterateSplits(Pacing.Trace(p, sleeps, fed), now, swaps, frequency, d, sleepTime, frameCount, fed');
      }
    }

    /** The worker loop, run for |ticks| iterations (the stop signal is seen
        after the last): the k-th iteration reads the counter as ticks[k],
        and the core's steps in it signal swaps as swaps[k] says.  Returns
        the sleeps passed to Thread.Sleep. */
    method WorkerThread(ticks: seq<int>, swaps: seq<seq<bool>>, frequency: int) returns (sleeps: seq<int>)
      requires frequency > 0 && |swaps| == |ticks| > 0
      requires speedCalculator.Valid()
      modifies this, speedCalculator, speedCalculator.samples
      ensures sleeps == Pacing.Schedule(ticks, swaps, frequency).sleeps
      ensures speedCalculator.Valid()
      ensures speedCalculator.State()
                == FrameSpeed.Run(old(speedCalculator.State()), Pacing.Schedule(ticks, swaps, frequency).speeds)
      ensures Lifecycle() == old(Lifecycle())
    {
      var lastSample, lastTarget, lastFrameCount := 0, 0, 0;
      sleeps := [];
      ghost var fed: seq<real> := [];
      ghost var s0 := speedCalculator.State();
      var iteration := 0;
      while iteration < |ticks|
        invariant 0 <= iteration <= |ticks|
        invariant Pacing.Schedule(ticks[..iteration], swaps[..iteration], frequency)
                    == Pacing.Trace(Pacing.PaceState(lastSample, lastTarget, lastFrameCount), sleeps, fed)
        invariant speedCalculator.Valid() && speedCalculator.State() == FrameSpeed.Run(s0, fed)
        invariant Lifecycle() == old(Lifecycle())
      {
        ghost var t := Pacing.Trace(Pacing.PaceState(lastSample, lastTarget, lastFrameCount), sleeps, fed);
        var sleepTime;
        lastSample, lastTarget, lastFrameCount, sleepTime, fed :=
          Iteration(lastSample, lastTarget, lastFrameCount, ticks[iteration], swaps[iteration], frequency, s0, fed);
        sleeps := sleeps + [sleepTime];  // Thread.Sleep(sleepTime)
        Pacing.ScheduleSnoc(ticks, swaps, iteration, frequency);
        iteration := iteration + 1;
      }
      assert ticks[..iteration] == ticks && swaps[..iteration] == swaps;
    }
  }
}
