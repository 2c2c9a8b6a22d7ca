/** The values the core receives from the frame producer (a VapourSynth clip).
    Pixel computation is not modelled: a clip is the sequence of frames it would
    produce, each a list of plane buffers with a property mapping. */
module Clips {
  import opened Wire

  /** A frame property value: an integer, or any other value by its `str()` text. */
  datatype PropValue = IntProp(value: int) | TextProp(text: string)

  type Props = map<string, PropValue>

  /** The `format` record of a clip, field for field as the Header reply carries it. */
  datatype Format = Format(
    id: int,
    name: string,
    colorFamily: int,
    sampleType: int,
    bitsPerSample: int,
    bytesPerSample: int,
    subsamplingW: int,
    subsamplingH: int,
    numPlanes: int)

  datatype VideoFrame = VideoFrame(planes: seq<Bytes>, props: Props)

  /** A clip: format, geometry, frame rate and the frames it yields, index by index. */
  datatype Clip = Clip(
    format: Format,
    width: int,
    height: int,
    fpsNum: int,
    fpsDen: int,
    frames: seq<VideoFrame>)
}
