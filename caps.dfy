/**
 * Capability detection: a record computed from the context version and the
 * set of extensions `getExtension` would return a non-null object for.
 */
module Caps {

  datatype TimerSupport = NoTimer | TimerWebGL1 | TimerWebGL2

  datatype Extensions = Extensions(
    instanced: bool,
    vao: bool,
    mrt: bool,
    timer: TimerSupport,
    depthTexture: bool,
    colorBufferFloat: bool,
    colorBufferHalfFloat: bool,
    debugRendererInfo: bool)

  datatype Capabilities = Capabilities(webgl2: bool, ext: Extensions)

  const ANGLE_INSTANCED_ARRAYS := "ANGLE_instanced_arrays"
  const OES_VERTEX_ARRAY_OBJECT := "OES_vertex_array_object"
  const WEBGL_DRAW_BUFFERS := "WEBGL_draw_buffers"
  const EXT_DISJOINT_TIMER_QUERY := "EXT_disjoint_timer_query"
  const EXT_DISJOINT_TIMER_QUERY_WEBGL2 := "EXT_disjoint_timer_query_webgl2"
  const WEBGL_DEPTH_TEXTURE := "WEBGL_depth_texture"
  const EXT_COLOR_BUFFER_FLOAT := "EXT_color_buffer_float"
  const WEBGL_COLOR_BUFFER_FLOAT := "WEBGL_color_buffer_float"
  const EXT_COLOR_BUFFER_HALF_FLOAT := "EXT_color_buffer_half_float"
  const WEBGL_DEBUG_RENDERER_INFO := "WEBGL_debug_renderer_info"

  /** The timer flavour: the WebGL2 extension on a WebGL2 context, the WebGL1 one otherwise. */
  function TimerKind(isGL2: bool, exts: set<string>): (t: TimerSupport)
    ensures t == TimerWebGL2 <==> isGL2 && EXT_DISJOINT_TIMER_QUERY_WEBGL2 in exts
    ensures t == TimerWebGL1 <==> !isGL2 && EXT_DISJOINT_TIMER_QUERY in exts
  {
    if isGL2 then (if EXT_DISJOINT_TIMER_QUERY_WEBGL2 in exts then TimerWebGL2 else NoTimer)
    else (if EXT_DISJOINT_TIMER_QUERY in exts then TimerWebGL1 else NoTimer)
  }

  /** `detectCapabilities(gl)` for a context of the given version exposing `exts`. */
  function DetectCapabilities(isGL2: bool, exts: set<string>): (c: Capabilities)
    ensures c.webgl2 == isGL2
    ensures isGL2 ==> c.ext.instanced && c.ext.vao && c.ext.mrt && c.ext.depthTexture
    ensures !isGL2 ==>
      (c.ext.instanced <==> ANGLE_INSTANCED_ARRAYS in exts) &&
      (c.ext.vao <==> OES_VERTEX_ARRAY_OBJECT in exts) &&
      (c.ext.mrt <==> WEBGL_DRAW_BUFFERS in exts) &&
      (c.ext.depthTexture <==> WEBGL_DEPTH_TEXTURE in exts)
    ensures c.ext.timer == TimerWebGL2 <==> isGL2 && EXT_DISJOINT_TIMER_QUERY_WEBGL2 in exts
    ensures c.ext.timer == TimerWebGL1 <==> !isGL2 && EXT_DISJOINT_TIMER_QUERY in exts
    ensures c.ext.colorBufferFloat <==> EXT_COLOR_BUFFER_FLOAT in exts || WEBGL_COLOR_BUFFER_FLOAT in exts
    ensures c.ext.colorBufferHalfFloat <==> EXT_COLOR_BUFFER_HALF_FLOAT in exts
    ensures c.ext.debugRendererInfo <==> WEBGL_DEBUG_RENDERER_INFO in exts
  {
    Capabilities(
      isGL2,
      Extensions(
        isGL2 || ANGLE_INSTANCED_ARRAYS in exts,
        isGL2 || OES_VERTEX_ARRAY_OBJECT in exts,
        isGL2 || WEBGL_DRAW_BUFFERS in exts,
        TimerKind(isGL2, exts),
        isGL2 || WEBGL_DEPTH_TEXTURE in exts,
        EXT_COLOR_BUFFER_FLOAT in exts || WEBGL_COLOR_BUFFER_FLOAT in exts,
        EXT_COLOR_BUFFER_HALF_FLOAT in exts,
        WEBGL_DEBUG_RENDERER_INFO in exts))
  }

  /** Adding extensions never takes a capability away (the timer flavour only goes from none to the context's own). */
  lemma CapabilitiesMonotone(isGL2: bool, a: set<string>, b: set<string>)
    requires a <= b
    ensures var ca, cb := DetectCapabilities(isGL2, a), DetectCapabilities(isGL2, b);
      (ca.ext.instanced ==> cb.ext.instanced) && (ca.ext.vao ==> cb.ext.vao) &&
      (ca.ext.mrt ==> cb.ext.mrt) && (ca.ext.depthTexture ==> cb.ext.depthTexture) &&
      (ca.ext.colorBufferFloat ==> cb.ext.colorBufferFloat) &&
      (ca.ext.colorBufferHalfFloat ==> cb.ext.colorBufferHalfFloat) &&
      (ca.ext.debugRendererInfo ==> cb.ext.debugRendererInfo) &&
      (ca.ext.timer != NoTimer ==> cb.ext.timer == ca.ext.timer)
  {
  }
}
